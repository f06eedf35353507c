/** The scoring rules of src/utils/seoAnalysis.ts: the title, meta-description
    and load-time checks and the aggregate issue-penalty score. */
module SeoAnalysis {
  import opened Wrappers
  import opened Text
  import opened AnalysisTypes

  const TITLE_MIN_LENGTH: nat := 30
  const TITLE_MAX_LENGTH: nat := 60
  const DESCRIPTION_MIN_LENGTH: nat := 120
  const DESCRIPTION_MAX_LENGTH: nat := 155
  const SLOW_THRESHOLD: int := 3000
  const VERY_SLOW_THRESHOLD: int := 5000

  const MISSING_TITLE := "Missing title tag"
  const TITLE_TOO_SHORT := "Title tag too short"
  const TITLE_TOO_LONG := "Title tag too long"
  const MISSING_DESCRIPTION := "Missing meta description"
  const DESCRIPTION_TOO_SHORT := "Meta description too short"
  const DESCRIPTION_TOO_LONG := "Meta description too long"
  const VERY_SLOW_LOAD := "Very slow load time"
  const SLOW_LOAD := "Slow load time"

  /** Some issue in the list has this kind and message. */
  predicate HasIssue(issues: seq<SeoIssue>, kind: IssueType, message: string) {
    exists i :: 0 <= i < |issues| && issues[i].kind == kind && issues[i].message == message
  }

  /** The title check: empty is one "Missing" error; otherwise at most one
      warning, "too short" exactly below 30 characters and "too long" exactly
      above 60; optimal exactly when there is no issue. Lengths are
      JavaScript's: UTF-16 code units. */
  function AnalyzeTitleTag(title: string): (r: TitleAnalysis)
    ensures r.text == title && r.length == Utf16Length(title)
    ensures r.isOptimal <==> r.issues == []
    ensures title == "" ==>
              r.issues == [SeoIssue(Error, MISSING_TITLE, Some("Every page should have a title tag"))]
    ensures title != "" ==> |r.issues| <= 1 && CountOfKind(r.issues, Error) == 0
    ensures HasIssue(r.issues, Warning, TITLE_TOO_SHORT) <==> 0 < Utf16Length(title) < TITLE_MIN_LENGTH
    ensures HasIssue(r.issues, Warning, TITLE_TOO_LONG) <==> Utf16Length(title) > TITLE_MAX_LENGTH
    ensures title != "" ==> (r.isOptimal <==> TITLE_MIN_LENGTH <= Utf16Length(title) <= TITLE_MAX_LENGTH)
  {
    var issues :=
      if title == "" then
        [SeoIssue(Error, MISSING_TITLE, Some("Every page should have a title tag"))]
      else
        (if Utf16Length(title) < TITLE_MIN_LENGTH then
           [SeoIssue(Warning, TITLE_TOO_SHORT,
                     Some("Title should be at least " + Decimal(TITLE_MIN_LENGTH)
                          + " characters. Current length: " + Decimal(Utf16Length(title))))]
         else [])
        + (if Utf16Length(title) > TITLE_MAX_LENGTH then
             [SeoIssue(Warning, TITLE_TOO_LONG,
                       Some("Title should be no more than " + Decimal(TITLE_MAX_LENGTH)
                            + " characters. Current length: " + Decimal(Utf16Length(title))))]
           else []);
    TitleAnalysis(title, Utf16Length(title), |issues| == 0, issues)
  }

  /** A title of characters beyond the Basic Multilingual Plane counts two
      code units per character, so it is optimal from 15 to 30 characters. */
  lemma AstralTitleLength(title: string)
    requires forall i :: 0 <= i < |title| ==> title[i] as int >= 0x1_0000
    ensures AnalyzeTitleTag(title).length == 2 * |title|
    ensures title != "" ==> (AnalyzeTitleTag(title).isOptimal <==> 15 <= |title| <= 30)
  {
    Utf16LengthByPlane(title);
  }

  /** The meta-description check, the same three-way rule with the
      thresholds 120 and 155, over UTF-16 code units. */
  function AnalyzeMetaDescription(description: string): (r: DescriptionAnalysis)
    ensures r.text == description && r.length == Utf16Length(description)
    ensures r.isOptimal <==> r.issues == []
    ensures description == "" ==>
              r.issues == [SeoIssue(Error, MISSING_DESCRIPTION, Some("Every page should have a meta description"))]
    ensures description != "" ==> |r.issues| <= 1 && CountOfKind(r.issues, Error) == 0
    ensures (HasIssue(r.issues, Warning, DESCRIPTION_TOO_SHORT)
             <==> 0 < Utf16Length(description) < DESCRIPTION_MIN_LENGTH)
    ensures HasIssue(r.issues, Warning, DESCRIPTION_TOO_LONG) <==> Utf16Length(description) > DESCRIPTION_MAX_LENGTH
    ensures description != "" ==>
              (r.isOptimal <==> DESCRIPTION_MIN_LENGTH <= Utf16Length(description) <= DESCRIPTION_MAX_LENGTH)
  {
    var issues :=
      if description == "" then
        [SeoIssue(Error, MISSING_DESCRIPTION, Some("Every page should have a meta description"))]
      else
        (if Utf16Length(description) < DESCRIPTION_MIN_LENGTH then
           [SeoIssue(Warning, DESCRIPTION_TOO_SHORT,
                     Some("Description should be at least " + Decimal(DESCRIPTION_MIN_LENGTH)
                          + " characters. Current length: " + Decimal(Utf16Length(description))))]
         else [])
        + (if Utf16Length(description) > DESCRIPTION_MAX_LENGTH then
             [SeoIssue(Warning, DESCRIPTION_TOO_LONG,
                       Some("Description should be no more than " + Decimal(DESCRIPTION_MAX_LENGTH)
                            + " characters. Current length: " + Decimal(Utf16Length(description))))]
           else []);
    DescriptionAnalysis(description, Utf16Length(description), |issues| == 0, issues)
  }

  /** The load-time check: an error above 5000 ms, otherwise a warning above
      3000 ms, otherwise nothing; the load time is echoed back. */
  function AnalyzeLoadTime(loadTime: int): (r: PerformanceAnalysis)
    ensures r.loadTime == loadTime
    ensures |r.issues| <= 1
    ensures HasIssue(r.issues, Error, VERY_SLOW_LOAD) <==> loadTime > VERY_SLOW_THRESHOLD
    ensures HasIssue(r.issues, Warning, SLOW_LOAD) <==> SLOW_THRESHOLD < loadTime <= VERY_SLOW_THRESHOLD
    ensures r.issues == [] <==> loadTime <= SLOW_THRESHOLD
    ensures CountOfKind(r.issues, Error) == (if loadTime > VERY_SLOW_THRESHOLD then 1 else 0)
  {
    var issues :=
      if loadTime > VERY_SLOW_THRESHOLD then
        [SeoIssue(Error, VERY_SLOW_LOAD,
                  Some("Page took " + Decimal(loadTime) + "ms to load. Should be under "
                       + Decimal(VERY_SLOW_THRESHOLD) + "ms"))]
      else if loadTime > SLOW_THRESHOLD then
        [SeoIssue(Warning, SLOW_LOAD,
                  Some("Page took " + Decimal(loadTime) + "ms to load. Should be under "
                       + Decimal(SLOW_THRESHOLD) + "ms"))]
      else [];
    assert issues != [] ==> issues[0].kind == (if loadTime > VERY_SLOW_THRESHOLD then Error else Warning);
    assert loadTime > VERY_SLOW_THRESHOLD ==> HasIssue(issues, Error, VERY_SLOW_LOAD);
    assert SLOW_THRESHOLD < loadTime <= VERY_SLOW_THRESHOLD ==> HasIssue(issues, Warning, SLOW_LOAD);
    PerformanceAnalysis(loadTime, issues)
  }

  /** The number of issues of one kind across several analyses. */
  function CountAcross(analyses: seq<seq<SeoIssue>>, kind: IssueType): nat {
    if analyses == [] then 0 else CountOfKind(analyses[0], kind) + CountAcross(analyses[1..], kind)
  }

  /** The number of issues across several analyses. */
  function TotalIssues(analyses: seq<seq<SeoIssue>>): nat {
    if analyses == [] then 0 else |analyses[0]| + TotalIssues(analyses[1..])
  }

  function Clamp(lo: int, hi: int, x: int): int
    requires lo <= hi
  {
    if x < lo then lo else if x > hi then hi else x
  }

  /** The aggregate score of the issue lists of several analyses: 100, less 20
      per error and 5 per warning, clamped to [0, 100]. */
  function CalculateSeoScore(analyses: seq<seq<SeoIssue>>): (score: int)
    ensures 0 <= score <= 100
  {
    var errorCount := CountAcross(analyses, Error);
    var warningCount := CountAcross(analyses, Warning);
    Clamp(0, 100, 100 - errorCount * 20 - warningCount * 5)
  }

  lemma {:induction false} CountAcrossAppend(a: seq<seq<SeoIssue>>, b: seq<seq<SeoIssue>>, kind: IssueType)
    ensures CountAcross(a + b, kind) == CountAcross(a, kind) + CountAcross(b, kind)
  {
    if a == [] {
      assert a + b == b;
    } else {
      assert (a + b)[1..] == a[1..] + b;
      CountAcrossAppend(a[1..], b, kind);
    }
  }

  lemma {:induction false} ErrorsPlusWarningsAcross(analyses: seq<seq<SeoIssue>>)
    ensures CountAcross(analyses, Error) + CountAcross(analyses, Warning) == TotalIssues(analyses)
  {
    if analyses != [] {
      ErrorsPlusWarnings(analyses[0]);
      ErrorsPlusWarningsAcross(analyses[1..]);
    }
  }

  /** The score is 100 exactly when there is no issue at all. */
  lemma ScoreFullIffNoIssues(analyses: seq<seq<SeoIssue>>)
    ensures CalculateSeoScore(analyses) == 100 <==> TotalIssues(analyses) == 0
  {
    ErrorsPlusWarningsAcross(analyses);
  }

  /** The score of three issue lists is the score of their concatenation: it
      depends only on how many errors and warnings there are in all. */
  lemma ScoreOfThree(t: seq<SeoIssue>, d: seq<SeoIssue>, p: seq<SeoIssue>)
    ensures var all := t + d + p;
            && CalculateSeoScore([t, d, p]) == Clamp(0, 100, 100 - 20 * CountOfKind(all, Error) - 5 * CountOfKind(all, Warning))
            && (CalculateSeoScore([t, d, p]) == 100 <==> all == [])
  {
    assert [t, d, p][1..] == [d, p] && [d, p][1..] == [p] && [p][1..] == [];
    forall kind: IssueType ensures CountAcross([t, d, p], kind) == CountOfKind(t + d + p, kind) {
      CountOfKindAppend(t, d, kind);
      CountOfKindAppend(t + d, p, kind);
      assert CountAcross([p], kind) == CountOfKind(p, kind);
      assert CountAcross([d, p], kind) == CountOfKind(d, kind) + CountOfKind(p, kind);
    }
    ErrorsPlusWarnings(t + d + p);
  }

  /** Taking the same element out of two permutations leaves two permutations. */
  lemma RemoveMatching<T>(a: seq<T>, b: seq<T>, j: nat)
    requires multiset(a) == multiset(b) && a != [] && j < |b| && b[j] == a[0]
    ensures multiset(a[1..]) == multiset(b[..j] + b[j + 1..])
  {
    var x := a[0];
    var p, q := b[..j], b[j + 1..];
    assert a == [x] + a[1..];
    assert b == p + [x] + q;
    forall y ensures multiset(a[1..])[y] == multiset(p + q)[y] {
      assert multiset(a)[y] == multiset([x])[y] + multiset(a[1..])[y];
      assert multiset(b)[y] == multiset(p)[y] + multiset([x])[y] + multiset(q)[y];
    }
    assert multiset(a[1..]) == multiset(p + q);
  }

  /** Counting does not depend on the order of the analyses. */
  lemma {:induction false} CountAcrossPermutation(a: seq<seq<SeoIssue>>, b: seq<seq<SeoIssue>>, kind: IssueType)
    requires multiset(a) == multiset(b)
    ensures CountAcross(a, kind) == CountAcross(b, kind)
    decreases |a|
  {
    if a == [] {
      assert |b| == |multiset(b)| == 0;
    } else {
      var x := a[0];
      assert x in multiset(b);
      var j :| 0 <= j < |b| && b[j] == x;
      var rest := b[..j] + b[j + 1..];
      RemoveMatching(a, b, j);
      CountAcrossPermutation(a[1..], rest, kind);
      assert b == b[..j] + [x] + b[j + 1..];
      CountAcrossAppend(b[..j], b[j + 1..], kind);
      CountAcrossAppend(b[..j] + [x], b[j + 1..], kind);
      CountAcrossAppend(b[..j], [x], kind);
    }
  }

  /** The score does not depend on the order in which the analyses are given. */
  lemma ScoreOrderIndependent(a: seq<seq<SeoIssue>>, b: seq<seq<SeoIssue>>)
    requires multiset(a) == multiset(b)
    ensures CalculateSeoScore(a) == CalculateSeoScore(b)
  {
    CountAcrossPermutation(a, b, Error);
    CountAcrossPermutation(a, b, Warning);
  }

  /** Appending an issue to one of the analyses changes exactly one count by one. */
  lemma {:induction false} CountAcrossAddIssue(a: seq<seq<SeoIssue>>, k: nat, issue: SeoIssue, kind: IssueType)
    requires k < |a|
    ensures CountAcross(a[k := a[k] + [issue]], kind)
            == CountAcross(a, kind) + (if issue.kind == kind then 1 else 0)
  {
    var a' := a[k := a[k] + [issue]];
    CountOfKindAppend(a[k], [issue], kind);
    if k == 0 {
      assert a'[1..] == a[1..];
    } else {
      assert a'[1..] == a[1..][k - 1 := a[k] + [issue]];
      CountAcrossAddIssue(a[1..], k - 1, issue, kind);
    }
  }

  /** Adding an issue never raises the score, and lowers it unless it is already 0. */
  lemma AddingIssueNeverRaisesScore(a: seq<seq<SeoIssue>>, k: nat, issue: SeoIssue)
    requires k < |a|
    ensures CalculateSeoScore(a[k := a[k] + [issue]]) <= CalculateSeoScore(a)
    ensures CalculateSeoScore(a) > 0 ==>
              CalculateSeoScore(a[k := a[k] + [issue]]) < CalculateSeoScore(a)
  {
    CountAcrossAddIssue(a, k, issue, Error);
    CountAcrossAddIssue(a, k, issue, Warning);
  }
}
