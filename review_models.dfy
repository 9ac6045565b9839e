/**
 * The records a review produces (`ReviewIssue`, `FileReviewResult`,
 * `ReviewResult`) and the counting facts the engine and the formatter rely
 * on.  A file result is consistent when its counters agree with its issue
 * list.
 */
module ReviewModels {
  import opened Wrappers
  import opened OrderedMap

  datatype ReviewIssue = ReviewIssue(
    rule: string,
    severity: string,
    line: Option<int>,
    message: string,
    suggestion: Option<string>,
    filePath: Option<string>)

  datatype FileReviewResult = FileReviewResult(
    filename: string,
    issues: seq<ReviewIssue>,
    summary: string,
    totalIssues: int,
    errorCount: int,
    warningCount: int,
    infoCount: int,
    suggestionCount: int,
    tokensUsed: int,
    costEstimate: real)

  datatype ReviewResult = ReviewResult(
    files: Dict<string, FileReviewResult>,
    totalFiles: int,
    totalIssues: int,
    totalErrors: int,
    totalWarnings: int,
    totalInfo: int,
    totalSuggestions: int,
    totalTokens: int,
    totalCost: real,
    summary: string)

  /** The four severities an issue may carry. */
  const Severities: seq<string> := ["error", "warning", "info", "suggestion"]

  /** `sum(1 for issue in issues if issue.severity == severity)` */
  function CountSeverity(issues: seq<ReviewIssue>, severity: string): (n: nat)
    ensures n <= |issues|
  {
    if issues == [] then 0
    else CountSeverity(issues[..|issues| - 1], severity) + (if issues[|issues| - 1].severity == severity then 1 else 0)
  }

  /** Every issue carries one of the four severities. */
  predicate ValidSeverities(issues: seq<ReviewIssue>) {
    forall i :: 0 <= i < |issues| ==> issues[i].severity in Severities
  }

  /** When every severity is one of the four, the four counts add up to the number of issues. */
  lemma {:induction false} CountsSum(issues: seq<ReviewIssue>)
    requires ValidSeverities(issues)
    ensures CountSeverity(issues, "error") + CountSeverity(issues, "warning")
            + CountSeverity(issues, "info") + CountSeverity(issues, "suggestion") == |issues|
  {
    if issues != [] {
      var init := issues[..|issues| - 1];
      assert ValidSeverities(init) by {
        forall i | 0 <= i < |init| ensures init[i].severity in Severities {
          assert init[i] == issues[i];
        }
      }
      CountsSum(init);
      assert issues[|issues| - 1].severity in Severities;
    }
  }

  /** Counting over a prefix never gives more. */
  lemma {:induction false} CountPrefix(issues: seq<ReviewIssue>, k: nat, severity: string)
    requires k <= |issues|
    ensures CountSeverity(issues[..k], severity) <= CountSeverity(issues, severity)
    decreases |issues|
  {
    if k < |issues| {
      var init := issues[..|issues| - 1];
      assert issues[..k] == init[..k];
      CountPrefix(init, k, severity);
    } else {
      assert issues[..k] == issues;
    }
  }

  /** A file result whose counters agree with its issue list. */
  predicate Consistent(r: FileReviewResult) {
    && ValidSeverities(r.issues)
    && r.totalIssues == |r.issues|
    && r.errorCount == CountSeverity(r.issues, "error")
    && r.warningCount == CountSeverity(r.issues, "warning")
    && r.infoCount == CountSeverity(r.issues, "info")
    && r.suggestionCount == CountSeverity(r.issues, "suggestion")
  }

  /** In a consistent result the total is the sum of the four severity counters. */
  lemma ConsistentTotals(r: FileReviewResult)
    requires Consistent(r)
    ensures r.totalIssues == r.errorCount + r.warningCount + r.infoCount + r.suggestionCount
  {
    CountsSum(r.issues);
  }
}
