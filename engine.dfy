/**
 * The review engine (`ReviewEngine`): for each changed file it resolves the
 * rule templates and rules, builds the prompt, asks the model, and turns the
 * model's text into a file result; failures are isolated per file, and the
 * file results are summed into the run result.
 *
 * The collaborators are parameters bundled in `Env`: the configuration's
 * template lookup, the rule processor's `load_rules_for_file`, the Bedrock
 * client's `invoke_model` and `json.loads`.
 */
module Engine {
  import opened Wrappers
  import opened Strings
  import opened Json
  import opened Exceptions
  import opened OrderedMap
  import opened ReviewModels
  import GitOperations
  import Client

  /** The `review` and `performance` settings the engine reads. */
  datatype Settings = Settings(
    severityThreshold: string,
    maxIssuesPerFile: int,
    batchSize: int,
    parallelProcessing: bool)

  datatype Env = Env(
    settings: Settings,
    templatesFor: string -> seq<string>,
    loadRules: (string, seq<string>) -> Result<Dict<string, Value>, Error>,
    invoke: (string, string) -> Result<Client.BedrockResponse, Error>,
    decode: string -> Result<Value, string>)

  // ---------------------------------------------------------------------
  // Severities
  // ---------------------------------------------------------------------

  /** The rank of a severity; `None` for any other text. */
  function Level(severity: string): (r: Option<int>)
    ensures r.Some? <==> severity in Severities
    ensures r.Some? ==> 1 <= r.value <= 4
  {
    if severity == "suggestion" then Some(1)
    else if severity == "info" then Some(2)
    else if severity == "warning" then Some(3)
    else if severity == "error" then Some(4)
    else None
  }

  /** `_meets_severity_threshold`: an unknown threshold counts as `warning`, an unknown severity as `info`. */
  predicate MeetsThreshold(threshold: string, severity: string) {
    Level(severity).GetOr(2) >= Level(threshold).GetOr(3)
  }

  /** Kept issues are those at least as severe as the threshold; errors are always kept. */
  lemma ThresholdSpec(threshold: string, s1: string, s2: string)
    requires s1 in Severities && s2 in Severities
    ensures MeetsThreshold(threshold, "error")
    ensures MeetsThreshold(threshold, s1) && Level(s1).value <= Level(s2).value ==> MeetsThreshold(threshold, s2)
    ensures threshold !in Severities ==> (MeetsThreshold(threshold, s1) <==> MeetsThreshold("warning", s1))
    ensures MeetsThreshold("suggestion", s1)
    ensures MeetsThreshold(threshold, s1) <==> (threshold in Severities ==> Level(s1).value >= Level(threshold).value)
                                               && (threshold !in Severities ==> s1 == "warning" || s1 == "error")
  {
  }

  /** An unknown severity becomes `info`. */
  function Coerce(severity: string): (r: string)
    ensures r in Severities
    ensures severity in Severities ==> r == severity
    ensures severity !in Severities ==> r == "info"
  {
    if severity in Severities then severity else "info"
  }

  lemma CoerceIdempotent(severity: string)
    ensures Coerce(Coerce(severity)) == Coerce(severity)
  {
  }

  /** `_get_change_type_description` */
  const Descriptions: map<char, string> := map[
    'A' := "Added (new file)",
    'M' := "Modified (existing file)",
    'D' := "Deleted (removed file)",
    'R' := "Renamed (moved file)",
    'C' := "Copied (duplicated file)"]

  function ChangeTypeDescription(status: char): string {
    if status in Descriptions then Descriptions[status] else "Unknown (" + [status] + ")"
  }

  /** Distinct statuses get distinct descriptions, and only the five git codes are known. */
  lemma ChangeTypeDescriptionInjective(s1: char, s2: char)
    ensures ChangeTypeDescription(s1) == ChangeTypeDescription(s2) ==> s1 == s2
    ensures StartsWith(ChangeTypeDescription(s1), "Unknown (") <==> s1 !in "AMDRC"
  {
    var d1 := ChangeTypeDescription(s1);
    var d2 := ChangeTypeDescription(s2);
    if d1 == d2 && s1 !in "AMDRC" && s2 !in "AMDRC" {
      assert d1[9] == s1 && d2[9] == s2;
    }
    if s1 in "AMDRC" {
      assert d1[0] != 'U';
    }
  }

  // ---------------------------------------------------------------------
  // File results
  // ---------------------------------------------------------------------

  /** `_create_empty_file_result` */
  function EmptyFileResult(filename: string): FileReviewResult {
    FileReviewResult(filename, [], "No issues found", 0, 0, 0, 0, 0, 0, 0.0)
  }

  /** `_create_error_result`: a single `system` error describing the failure. */
  function ErrorResult(filename: string, errorMessage: string): FileReviewResult {
    var text := "Review failed: " + errorMessage;
    FileReviewResult(filename, [ReviewIssue("system", "error", None, text, None, Some(filename))], text, 1, 1, 0, 0, 0, 0, 0.0)
  }

  /** Empty and error results are consistent: the error result counts its one issue as an error, with no tokens or cost. */
  lemma PlaceholderResultsConsistent(filename: string, errorMessage: string)
    ensures Consistent(EmptyFileResult(filename))
    ensures var r := ErrorResult(filename, errorMessage);
            && Consistent(r) && r.filename == filename
            && r.totalIssues == 1 && r.errorCount == 1 && r.tokensUsed == 0 && r.costEstimate == 0.0
            && r.issues[0].rule == "system" && r.issues[0].severity == "error" && r.issues[0].line.None?
  {
    var r := ErrorResult(filename, errorMessage);
    assert r.issues[..0] == [];
  }

  /** The counters of a result built from a list of issues (`engine.py` 302-318). */
  function ResultOf(filename: string, issues: seq<ReviewIssue>, summary: string, tokens: int, cost: real): (r: FileReviewResult)
    requires ValidSeverities(issues)
    ensures Consistent(r) && r.issues == issues && r.tokensUsed == tokens
  {
    FileReviewResult(filename, issues, summary, |issues|,
      CountSeverity(issues, "error"), CountSeverity(issues, "warning"),
      CountSeverity(issues, "info"), CountSeverity(issues, "suggestion"), tokens, cost)
  }

  // ---------------------------------------------------------------------
  // Parsing the model's answer
  // ---------------------------------------------------------------------

  /** The text from the first `{` to the last `}` of the stripped answer; `None` when either is missing. */
  function ExtractJson(content: string): (r: Option<string>)
    ensures r.Some? <==> '{' in Strip(content) && '}' in Strip(content)
  {
    var c := Strip(content);
    var start := Find(c, '{');
    var end := RFind(c, '}') + 1;
    if start == -1 || end == 0 then None
    else Some(if start <= end then c[start..end] else [])
  }

  /** A non-empty block starts at the first `{` and ends at the last `}`; it is empty only when the last `}` precedes the first `{`. */
  lemma ExtractJsonSpec(content: string)
    requires ExtractJson(content).Some?
    ensures var c := Strip(content);
            var block := ExtractJson(content).value;
            && (block != [] ==> exists i :: 0 <= i && i + |block| <= |c| && block == c[i..i + |block|]
                                   && '{' !in c[..i] && '}' !in c[i + |block|..]
                                   && block[0] == '{' && block[|block| - 1] == '}')
            && (block == [] <==> RFind(c, '}') < Find(c, '{'))
  {
    var c := Strip(content);
    var start := Find(c, '{');
    var end := RFind(c, '}') + 1;
    var block := ExtractJson(content).value;
    if block != [] {
      assert block == c[start..start + |block|];
    }
  }

  /** The issue an entry of `issues` describes; an entry that is not a mapping fails and is skipped. */
  function IssueOf(filename: string, entry: Value): (r: Option<ReviewIssue>)
    ensures r.Some? <==> entry.Obj?
    ensures r.Some? ==> && r.value.severity == Coerce(StrFieldOr(entry, "severity", "info"))
                        && r.value.rule == StrFieldOr(entry, "rule", "unknown")
                        && r.value.filePath == Some(filename)
  {
    if !entry.Obj? then None
    else
      var line: Option<int> := match Field(entry, "line") case Some(Int(n)) => Some(n) case _ => None;
      var suggestion: Option<string> := match Field(entry, "suggestion") case Some(Str(s)) => Some(s) case _ => None;
      Some(ReviewIssue(StrFieldOr(entry, "rule", "unknown"), Coerce(StrFieldOr(entry, "severity", "info")), line,
                       StrFieldOr(entry, "message", ""), suggestion, Some(filename)))
  }

  /** The issue an entry yields when it is kept, at most one. */
  function KeptOne(filename: string, entry: Value, threshold: string): (r: seq<ReviewIssue>)
    ensures |r| <= 1
    ensures forall i :: 0 <= i < |r| ==>
              r[i].severity in Severities && MeetsThreshold(threshold, r[i].severity) && r[i].filePath == Some(filename)
  {
    match IssueOf(filename, entry)
    case Some(issue) => if MeetsThreshold(threshold, issue.severity) then [issue] else []
    case None => []
  }

  /** The parsed issues that meet the threshold, in answer order. */
  function KeptIssues(filename: string, entries: seq<Value>, threshold: string): (r: seq<ReviewIssue>)
    ensures |r| <= |entries|
  {
    if entries == [] then []
    else
      var n := |entries| - 1;
      KeptIssues(filename, entries[..n], threshold) + KeptOne(filename, entries[n], threshold)
  }

  /** Every kept issue has a valid severity that meets the threshold and belongs to the file. */
  lemma {:induction false} KeptIssuesSpec(filename: string, entries: seq<Value>, threshold: string)
    ensures forall i :: 0 <= i < |KeptIssues(filename, entries, threshold)| ==>
              var issue := KeptIssues(filename, entries, threshold)[i];
              issue.severity in Severities && MeetsThreshold(threshold, issue.severity) && issue.filePath == Some(filename)
  {
    if entries != [] {
      var n := |entries| - 1;
      var init := KeptIssues(filename, entries[..n], threshold);
      var last := KeptOne(filename, entries[n], threshold);
      KeptIssuesSpec(filename, entries[..n], threshold);
      var r := KeptIssues(filename, entries, threshold);
      assert r == init + last;
      forall i | 0 <= i < |r|
        ensures r[i].severity in Severities && MeetsThreshold(threshold, r[i].severity) && r[i].filePath == Some(filename)
      {
        if i < |init| {
          assert r[i] == init[i];
        } else {
          assert r[i] == last[i - |init|];
        }
      }
    }
  }

  /** `issues[:limit]` when there are more than `limit`, with Python's meaning of a negative limit. */
  function Truncate(issues: seq<ReviewIssue>, limit: int): (r: seq<ReviewIssue>)
    ensures r <= issues
    ensures limit >= 0 ==> |r| == if |issues| > limit then limit else |issues|
    ensures limit < 0 ==> |r| == if |issues| + limit > 0 then |issues| + limit else 0
  {
    if |issues| <= limit then issues
    else if limit >= 0 then issues[..limit]
    else if |issues| + limit > 0 then issues[..|issues| + limit]
    else []
  }

  /** What iterating over the `issues` value yields; a dict or a string yields strings, each skipped. */
  function Entries(v: Value): Option<seq<Value>> {
    match v
    case Arr(items) => Some(items)
    case Obj(_) => Some([])
    case Str(_) => Some([])
    case _ => None
  }

  /** Python's name for the type of a value that cannot be iterated. */
  function TypeName(v: Value): string {
    match v
    case Null => "NoneType"
    case Bool(_) => "bool"
    case Int(_) => "int"
    case Float(_) => "float"
    case _ => "object"
  }

  /** The outcome of `'issues' in parsed_response` followed by `parsed_response.get('issues', [])`. */
  datatype IssuesLookup = Found(v: Value) | Missing | Failed(reason: string)

  /** A list or string "contains" `issues` by membership, but has no `get`; a scalar cannot be searched. */
  function IssuesField(parsed: Value): (r: IssuesLookup)
    ensures r.Found? <==> parsed.Obj? && Field(parsed, "issues").Some?
    ensures r.Found? ==> Field(parsed, "issues") == Some(r.v)
    ensures parsed.Obj? ==> !r.Failed?
  {
    match parsed
    case Obj(_) => (match Field(parsed, "issues") case Some(v) => Found(v) case None => Missing)
    case Arr(items) => if Str("issues") in items then Failed("'list' object has no attribute 'get'") else Missing
    case Str(s) => if Contains(s, "issues") then Failed("'str' object has no attribute 'get'") else Missing
    case _ => Failed("argument of type '" + TypeName(parsed) + "' is not iterable")
  }

  /** A usable answer: the decoded JSON object and the entries of its `issues`. */
  datatype Answer = Answer(parsed: Value, entries: seq<Value>)

  /**
   * Reading the model's answer; `Err` carries the text of the error result:
   * no JSON block, undecodable JSON, no `issues`, or `issues` not iterable.
   */
  function ReadAnswer(content: string, decode: string -> Result<Value, string>): (r: Result<Answer, string>)
    ensures r.Ok? <==> && ExtractJson(content).Some?
                        && decode(ExtractJson(content).value).Ok?
                        && IssuesField(decode(ExtractJson(content).value).value).Found?
                        && Entries(IssuesField(decode(ExtractJson(content).value).value).v).Some?
    ensures r.Ok? ==> && r.value.parsed.Obj?
                      && decode(ExtractJson(content).value) == Ok(r.value.parsed)
                      && Field(r.value.parsed, "issues").Some?
                      && Entries(Field(r.value.parsed, "issues").value) == Some(r.value.entries)
  {
    match ExtractJson(content)
    case None => Err("Invalid response format: " + Message(ValidationError("No JSON found in response", None)))
    case Some(text) =>
      match decode(text)
      case Err(m) => Err("Invalid JSON response: " + m)
      case Ok(parsed) =>
        match IssuesField(parsed)
        case Missing => Err("Invalid response format: " + Message(ValidationError("Response missing 'issues' field", None)))
        case Failed(reason) => Err("Parsing error: " + reason)
        case Found(v) =>
          match Entries(v)
          case None => Err("Parsing error: '" + TypeName(v) + "' object is not iterable")
          case Some(entries) => Ok(Answer(parsed, entries))
  }

  /** The issues of an answer, kept and truncated. */
  function AnswerIssues(filename: string, entries: seq<Value>, s: Settings): seq<ReviewIssue> {
    Truncate(KeptIssues(filename, entries, s.severityThreshold), s.maxIssuesPerFile)
  }

  /** The reported issues are the first kept ones, each meeting the threshold. */
  lemma AnswerIssuesSpec(filename: string, entries: seq<Value>, s: Settings)
    ensures var issues := AnswerIssues(filename, entries, s);
            && issues <= KeptIssues(filename, entries, s.severityThreshold)
            && ValidSeverities(issues)
            && (forall i :: 0 <= i < |issues| ==> MeetsThreshold(s.severityThreshold, issues[i].severity) && issues[i].filePath == Some(filename))
            && (s.maxIssuesPerFile >= 0 ==> |issues| <= s.maxIssuesPerFile)
  {
    var kept := KeptIssues(filename, entries, s.severityThreshold);
    KeptIssuesSpec(filename, entries, s.severityThreshold);
    var issues := AnswerIssues(filename, entries, s);
    forall i | 0 <= i < |issues|
      ensures issues[i].severity in Severities && MeetsThreshold(s.severityThreshold, issues[i].severity) && issues[i].filePath == Some(filename)
    {
      assert issues[i] == kept[i];
    }
  }

  /** `_parse_review_response`: failures become error results, never exceptions. */
  function ParsedResponse(filename: string, response: Client.BedrockResponse, decode: string -> Result<Value, string>, s: Settings): FileReviewResult {
    match ReadAnswer(response.content, decode)
    case Err(m) => ErrorResult(filename, m)
    case Ok(answer) =>
      AnswerIssuesSpec(filename, answer.entries, s);
      ResultOf(filename, AnswerIssues(filename, answer.entries, s), StrFieldOr(answer.parsed, "summary", "No summary provided"),
               response.inputTokens + response.outputTokens, response.costEstimate)
  }

  /** A usable answer gives a consistent result whose issues are the first kept ones, with the answer's tokens and cost. */
  lemma ParsedResponseUsable(filename: string, response: Client.BedrockResponse, decode: string -> Result<Value, string>, s: Settings)
    requires ReadAnswer(response.content, decode).Ok?
    ensures var r := ParsedResponse(filename, response, decode, s);
            var entries := ReadAnswer(response.content, decode).value.entries;
            && Consistent(r) && r.filename == filename
            && r.issues <= KeptIssues(filename, entries, s.severityThreshold)
            && (s.maxIssuesPerFile >= 0 ==> |r.issues| <= s.maxIssuesPerFile)
            && (forall i :: 0 <= i < |r.issues| ==> MeetsThreshold(s.severityThreshold, r.issues[i].severity))
            && r.tokensUsed == response.inputTokens + response.outputTokens
            && r.costEstimate == response.costEstimate
  {
    AnswerIssuesSpec(filename, ReadAnswer(response.content, decode).value.entries, s);
  }

  /** An unusable answer gives the file's error result: one `system` error, no tokens, no cost. */
  lemma ParsedResponseUnusable(filename: string, response: Client.BedrockResponse, decode: string -> Result<Value, string>, s: Settings)
    requires ReadAnswer(response.content, decode).Err?
    ensures var r := ParsedResponse(filename, response, decode, s);
            && Consistent(r) && r.filename == filename
            && r.totalIssues == 1 && r.errorCount == 1 && r.tokensUsed == 0 && r.costEstimate == 0.0
            && r.issues[0].rule == "system" && r.issues[0].severity == "error"
  {
    PlaceholderResultsConsistent(filename, ReadAnswer(response.content, decode).error);
  }

  /** The loop of `_parse_review_response` over the answer's entries. */
  method KeepIssues(filename: string, entries: seq<Value>, threshold: string) returns (issues: seq<ReviewIssue>)
    ensures issues == KeptIssues(filename, entries, threshold)
  {
    issues := [];
    var i := 0;
    while i < |entries|
      invariant 0 <= i <= |entries|
      invariant issues == KeptIssues(filename, entries[..i], threshold)
    {
      assert entries[..i + 1][..i] == entries[..i];
      match IssueOf(filename, entries[i]) {
        case Some(issue) =>
          if MeetsThreshold(threshold, issue.severity) {
            issues := issues + [issue];
          }
        case None =>
      }
      i := i + 1;
    }
    assert entries[..i] == entries;
  }

  /** `_parse_review_response` */
  method ParseReviewResponse(filename: string, response: Client.BedrockResponse, decode: string -> Result<Value, string>, s: Settings)
    returns (r: FileReviewResult)
    ensures r == ParsedResponse(filename, response, decode, s)
  {
    var block := ExtractJson(response.content);
    if block.None? {
      return ErrorResult(filename, "Invalid response format: " + Message(ValidationError("No JSON found in response", None)));
    }
    var parsed := decode(block.value);
    if parsed.Err? {
      return ErrorResult(filename, "Invalid JSON response: " + parsed.error);
    }
    var lookup := IssuesField(parsed.value);
    if lookup.Missing? {
      return ErrorResult(filename, "Invalid response format: " + Message(ValidationError("Response missing 'issues' field", None)));
    } else if lookup.Failed? {
      return ErrorResult(filename, "Parsing error: " + lookup.reason);
    }
    var entries := Entries(lookup.v);
    if entries.None? {
      return ErrorResult(filename, "Parsing error: '" + TypeName(lookup.v) + "' object is not iterable");
    }
    var issues := KeepIssues(filename, entries.value, s.severityThreshold);
    issues := Truncate(issues, s.maxIssuesPerFile);
    AnswerIssuesSpec(filename, entries.value, s);
    r := ResultOf(filename, issues, StrFieldOr(parsed.value, "summary", "No summary provided"),
                  response.inputTokens + response.outputTokens, response.costEstimate);
  }

  // ---------------------------------------------------------------------
  // Prompts
  // ---------------------------------------------------------------------

  /** `_build_system_prompt`, which ignores the rules. */
  const SystemPrompt := "You are an expert code reviewer with deep knowledge of software engineering best practices, security vulnerabilities, performance optimization, and code maintainability. Your role is to provide constructive, specific, and actionable feedback on code changes. Focus on identifying real issues that could impact code quality, security, or maintainability. Be concise but thorough in your analysis."

  /** The opening request of every review prompt. */
  const Request := "Please review the following code changes and provide feedback according to the specified rules."

  /** The lines before the review criteria. */
  function PromptHead(filename: string, change: GitOperations.FileChange): seq<string> {
    [ Request,
      "",
      "**File:** " + filename,
      "**Change Type:** " + ChangeTypeDescription(change.status),
      "**Lines Added:** " + IntToString(change.linesAdded),
      "**Lines Removed:** " + IntToString(change.linesRemoved),
      "",
      "**Code Changes:**",
      "```diff",
      change.diff,
      "```",
      "",
      "**Review Criteria:**" ]
  }

  /** The fixed lines describing the JSON answer expected of the model. */
  const ResponseFormat: seq<string> :=
    [ "",
      "**Response Format:**",
      "Please provide your review in the following JSON format:",
      "```json",
      "{",
      "  \"issues\": [",
      "    {",
      "      \"rule\": \"security|performance|maintainability|style|documentation\",",
      "      \"severity\": \"error|warning|info|suggestion\",",
      "      \"line\": <line_number_or_null>,",
      "      \"message\": \"Description of the issue\",",
      "      \"suggestion\": \"How to fix it (optional)\"",
      "    }",
      "  ],",
      "  \"summary\": \"Overall assessment of the changes\"",
      "}",
      "```",
      "",
      "**Important Guidelines:**",
      "- Focus only on the changed lines and their immediate context" ]

  /** The fixed closing guidelines. */
  const ClosingGuidelines: seq<string> :=
    [ "- Provide specific, actionable feedback",
      "- Consider the file type and context when applying rules" ]

  /** The lines after the review criteria. */
  function PromptTail(s: Settings): seq<string> {
    ResponseFormat
      + [ "- Maximum " + IntToString(s.maxIssuesPerFile) + " issues per file",
          "- Only report issues with severity >= " + s.severityThreshold ]
      + ClosingGuidelines
  }

  /** `f"\n**{rule_name.upper()}:**"` */
  function Heading(name: string): string {
    "\n**" + Upper(name) + ":**"
  }

  /** `rule_config.get` on a rule configuration that is not a mapping. */
  function NoGetOn(ruleConfig: Value): Error {
    NoAttribute(PyType(ruleConfig), "get")
  }

  /** `'\n'.join` meeting an item that is not a string at position `i`. */
  function NotStrItem(i: nat, item: Value): Error {
    BuiltinError("TypeError", "sequence item " + IntToString(i) + ": expected str instance, " + PyType(item) + " found")
  }

  /** A rule's items in `prompt_parts`: its upper-cased name as a heading and its `prompt` value as found, when it is enabled. */
  function RuleItems(name: string, ruleConfig: Value): seq<Value> {
    if Truthy(FieldOr(ruleConfig, "enabled", Bool(true))) then [Str(Heading(name)), FieldOr(ruleConfig, "prompt", Str(""))]
    else []
  }

  /** The rule loop of `_build_review_prompt`: the items of all rules, in rule order, or the failure of the first rule that is not a mapping. */
  function Criteria(rules: Dict<string, Value>): Result<seq<Value>, Error> {
    if rules == [] then Ok([])
    else
      var n := |rules| - 1;
      var init := Criteria(rules[..n]);
      if init.Err? then init
      else if !rules[n].1.Obj? then Err(NoGetOn(rules[n].1))
      else Ok(init.value + RuleItems(rules[n].0, rules[n].1))
  }

  /** Every rule configuration is a mapping. */
  predicate AllMappings(rules: Dict<string, Value>) {
    forall k :: 0 <= k < |rules| ==> rules[k].1.Obj?
  }

  /** Rule `k` is the first whose configuration is not a mapping. */
  predicate FirstNonMapping(rules: Dict<string, Value>, k: int) {
    0 <= k < |rules| && !rules[k].1.Obj? && forall j :: 0 <= j < k ==> rules[j].1.Obj?
  }

  /** The loop fails exactly when some rule configuration is not a mapping, and then with the first such. */
  lemma {:induction false} CriteriaFails(rules: Dict<string, Value>)
    ensures Criteria(rules).Ok? <==> AllMappings(rules)
    ensures Criteria(rules).Err? ==>
              exists k :: FirstNonMapping(rules, k) && Criteria(rules).error == NoGetOn(rules[k].1)
  {
    if rules != [] {
      var n := |rules| - 1;
      var init := rules[..n];
      CriteriaFails(init);
      assert forall k :: 0 <= k < n ==> init[k] == rules[k];
      if Criteria(init).Err? {
        var k :| FirstNonMapping(init, k) && Criteria(init).error == NoGetOn(init[k].1);
        assert Criteria(rules) == Criteria(init);
        assert FirstNonMapping(rules, k);
      } else if !rules[n].1.Obj? {
        assert Criteria(rules).error == NoGetOn(rules[n].1);
        assert FirstNonMapping(rules, n);
      } else {
        assert AllMappings(rules);
      }
    }
  }

  /** Each enabled rule contributes its heading followed by its `prompt` value, as found. */
  lemma {:induction false} CriteriaSpec(rules: Dict<string, Value>, k: int)
    requires 0 <= k < |rules|
    ensures Criteria(rules).Ok? && Truthy(FieldOr(rules[k].1, "enabled", Bool(true))) ==>
              exists j :: 0 <= j < |Criteria(rules).value| - 1 && Criteria(rules).value[j] == Str(Heading(rules[k].0))
                          && Criteria(rules).value[j + 1] == FieldOr(rules[k].1, "prompt", Str(""))
  {
    var n := |rules| - 1;
    var init := rules[..n];
    if Criteria(rules).Ok? && Truthy(FieldOr(rules[k].1, "enabled", Bool(true))) {
      var c := Criteria(rules).value;
      var ci := Criteria(init).value;
      assert c == ci + RuleItems(rules[n].0, rules[n].1);
      if k == n {
        var j := |ci|;
        assert c[j] == Str(Heading(rules[k].0)) && c[j + 1] == FieldOr(rules[k].1, "prompt", Str(""));
      } else {
        assert init[k] == rules[k];
        CriteriaSpec(init, k);
        var j :| 0 <= j < |ci| - 1 && ci[j] == Str(Heading(rules[k].0)) && ci[j + 1] == FieldOr(rules[k].1, "prompt", Str(""));
        assert c[j] == ci[j] && c[j + 1] == ci[j + 1];
      }
    }
  }

  /** A rule set of mappings with no enabled rule adds no criteria. */
  lemma {:induction false} CriteriaNoneEnabled(rules: Dict<string, Value>)
    requires forall k :: 0 <= k < |rules| ==> rules[k].1.Obj? && !Truthy(FieldOr(rules[k].1, "enabled", Bool(true)))
    ensures Criteria(rules).Ok? && Criteria(rules).value == []
  {
    if rules != [] {
      var n := |rules| - 1;
      assert forall k :: 0 <= k < n ==> rules[..n][k] == rules[k];
      CriteriaNoneEnabled(rules[..n]);
      assert rules[n].1.Obj? && !Truthy(FieldOr(rules[n].1, "enabled", Bool(true)));
      assert Criteria(rules) == Ok(Criteria(rules[..n]).value + RuleItems(rules[n].0, rules[n].1));
    }
  }

  /** A failure in the first `k` rules is the failure of the whole loop. */
  lemma {:induction false} CriteriaErrPrefix(rules: Dict<string, Value>, k: nat)
    requires k <= |rules| && Criteria(rules[..k]).Err?
    ensures Criteria(rules) == Criteria(rules[..k])
    decreases |rules| - k
  {
    if k < |rules| {
      assert rules[..k + 1][..k] == rules[..k];
      CriteriaErrPrefix(rules, k + 1);
    } else {
      assert rules[..k] == rules;
    }
  }

  /** The text of each item, `""` for one that is not a string. */
  function Texts(items: seq<Value>): (r: seq<string>)
    ensures |r| == |items|
    ensures forall i :: 0 <= i < |items| && items[i].Str? ==> r[i] == items[i].s
  {
    if items == [] then []
    else [if items[0].Str? then items[0].s else ""] + Texts(items[1..])
  }

  /** The position of the first item that is not a string, if any. */
  function FirstNonStr(items: seq<Value>): (r: Option<nat>)
    ensures r.None? <==> forall i :: 0 <= i < |items| ==> items[i].Str?
    ensures r.Some? ==> r.value < |items| && !items[r.value].Str? && forall i :: 0 <= i < r.value ==> items[i].Str?
  {
    if items == [] then None
    else if !items[0].Str? then Some(0)
    else
      var rest := FirstNonStr(items[1..]);
      if rest.None? then None else Some(rest.value + 1)
  }

  /** `'\n'.join(prompt_parts)`: the lines joined, or a `TypeError` naming the first item that is not a string. */
  function JoinLines(items: seq<Value>): (r: Result<string, Error>)
    ensures r.Ok? <==> forall i :: 0 <= i < |items| ==> items[i].Str?
    ensures r.Ok? ==> r.value == Join(Texts(items), "\n")
    ensures r.Err? ==> exists i :: 0 <= i < |items| && !items[i].Str? && (forall j :: 0 <= j < i ==> items[j].Str?)
                                   && r.error == NotStrItem(i, items[i])
  {
    var bad := FirstNonStr(items);
    if bad.None? then Ok(Join(Texts(items), "\n")) else Err(NotStrItem(bad.value, items[bad.value]))
  }

  /** Strings as `prompt_parts` items. */
  function Strs(lines: seq<string>): (r: seq<Value>)
    ensures |r| == |lines|
    ensures forall i :: 0 <= i < |lines| ==> r[i] == Str(lines[i])
  {
    if lines == [] then [] else [Str(lines[0])] + Strs(lines[1..])
  }

  /** `_build_review_prompt`: the rule loop, then the lines joined with newlines. */
  function ReviewPrompt(filename: string, change: GitOperations.FileChange, rules: Dict<string, Value>, s: Settings): Result<string, Error> {
    var criteria := Criteria(rules);
    if criteria.Err? then Err(criteria.error)
    else JoinLines(Strs(PromptHead(filename, change)) + criteria.value + Strs(PromptTail(s)))
  }

  /** Joining strings around some items fails exactly when one of those items is not a string, and then with a `TypeError`. */
  lemma JoinAroundStrs(a: seq<string>, c: seq<Value>, b: seq<string>)
    ensures JoinLines(Strs(a) + c + Strs(b)).Ok? <==> !NonStrItem(c)
    ensures JoinLines(Strs(a) + c + Strs(b)).Err? ==>
              (JoinLines(Strs(a) + c + Strs(b)).error.BuiltinError? && JoinLines(Strs(a) + c + Strs(b)).error.kind == "TypeError")
  {
    var items := Strs(a) + c + Strs(b);
    if NonStrItem(c) {
      var i :| 0 <= i < |c| && !c[i].Str?;
      assert items[|a| + i] == c[i];
    } else {
      forall i | 0 <= i < |items|
        ensures items[i].Str?
      {
        if |a| <= i < |a| + |c| {
          assert items[i] == c[i - |a|];
        }
      }
    }
  }

  /** Some enabled rule carries a `prompt` that is not a string. */
  predicate NonStrPrompt(rules: Dict<string, Value>) {
    exists k :: 0 <= k < |rules| && Truthy(FieldOr(rules[k].1, "enabled", Bool(true)))
                && !FieldOr(rules[k].1, "prompt", Str("")).Str?
  }

  /** Some item is not a string. */
  predicate NonStrItem(items: seq<Value>) {
    exists i :: 0 <= i < |items| && !items[i].Str?
  }

  /** A rule set of mappings never fails the rule loop. */
  lemma {:induction false} CriteriaOnMappings(rules: Dict<string, Value>)
    requires forall k :: 0 <= k < |rules| ==> rules[k].1.Obj?
    ensures Criteria(rules).Ok?
  {
    if rules != [] {
      var n := |rules| - 1;
      assert forall k :: 0 <= k < n ==> rules[..n][k] == rules[k];
      CriteriaOnMappings(rules[..n]);
    }
  }

  /** An item of the rule loop that is not a string comes from an enabled rule's `prompt`. */
  lemma NonStrItemFromPrompt(rules: Dict<string, Value>)
    ensures Criteria(rules).Ok? && NonStrItem(Criteria(rules).value) ==> NonStrPrompt(rules)
  {
    if Criteria(rules).Ok? && NonStrItem(Criteria(rules).value) {
      var c := Criteria(rules).value;
      var i :| 0 <= i < |c| && !c[i].Str?;
      CriteriaItemsStr(rules);
      var k :| 0 <= k < |rules| && Truthy(FieldOr(rules[k].1, "enabled", Bool(true))) && c[i] == FieldOr(rules[k].1, "prompt", Str(""));
      assert !FieldOr(rules[k].1, "prompt", Str("")).Str?;
    }
  }

  /** An enabled rule's `prompt` that is not a string becomes an item of the rule loop. */
  lemma NonStrPromptToItem(rules: Dict<string, Value>)
    ensures Criteria(rules).Ok? && NonStrPrompt(rules) ==> NonStrItem(Criteria(rules).value)
  {
    if Criteria(rules).Ok? && NonStrPrompt(rules) {
      var c := Criteria(rules).value;
      var k :| 0 <= k < |rules| && Truthy(FieldOr(rules[k].1, "enabled", Bool(true)))
               && !FieldOr(rules[k].1, "prompt", Str("")).Str?;
      CriteriaSpec(rules, k);
      var j :| 0 <= j < |c| - 1 && c[j] == Str(Heading(rules[k].0)) && c[j + 1] == FieldOr(rules[k].1, "prompt", Str(""));
      assert !c[j + 1].Str?;
    }
  }

  /**
   * With every rule a mapping, the prompt fails exactly when an enabled rule
   * carries a `prompt` that is not a string, and then with a `TypeError`.
   */
  lemma PromptFailsOnNonString(filename: string, change: GitOperations.FileChange, rules: Dict<string, Value>, s: Settings)
    requires forall k :: 0 <= k < |rules| ==> rules[k].1.Obj?
    ensures ReviewPrompt(filename, change, rules, s).Err? <==> NonStrPrompt(rules)
    ensures ReviewPrompt(filename, change, rules, s).Err? ==>
              (ReviewPrompt(filename, change, rules, s).error.BuiltinError? && ReviewPrompt(filename, change, rules, s).error.kind == "TypeError")
  {
    CriteriaOnMappings(rules);
    NonStrItemFromPrompt(rules);
    NonStrPromptToItem(rules);
    JoinAroundStrs(PromptHead(filename, change), Criteria(rules).value, PromptTail(s));
  }

  /** Every item of the rule loop is a heading or the `prompt` value of an enabled rule. */
  lemma {:induction false} CriteriaItemsStr(rules: Dict<string, Value>)
    ensures Criteria(rules).Ok? ==>
              forall i :: 0 <= i < |Criteria(rules).value| && !Criteria(rules).value[i].Str? ==>
                exists k :: 0 <= k < |rules| && Truthy(FieldOr(rules[k].1, "enabled", Bool(true)))
                            && Criteria(rules).value[i] == FieldOr(rules[k].1, "prompt", Str(""))
  {
    if rules != [] && Criteria(rules).Ok? {
      var n := |rules| - 1;
      var init := rules[..n];
      CriteriaItemsStr(init);
      var c := Criteria(rules).value;
      var ci := Criteria(init).value;
      assert c == ci + RuleItems(rules[n].0, rules[n].1);
      forall i | 0 <= i < |c| && !c[i].Str?
        ensures exists k :: 0 <= k < |rules| && Truthy(FieldOr(rules[k].1, "enabled", Bool(true)))
                            && c[i] == FieldOr(rules[k].1, "prompt", Str(""))
      {
        if i < |ci| {
          assert c[i] == ci[i];
          var k :| 0 <= k < n && Truthy(FieldOr(init[k].1, "enabled", Bool(true))) && ci[i] == FieldOr(init[k].1, "prompt", Str(""));
          assert init[k] == rules[k];
        } else {
          assert c[i] == FieldOr(rules[n].1, "prompt", Str(""));
        }
      }
    }
  }

  /** The rule loop after one more rule. */
  lemma CriteriaStep(rules: Dict<string, Value>, i: int)
    requires 0 <= i < |rules| && Criteria(rules[..i]).Ok?
    ensures Criteria(rules[..i + 1]) ==
              if rules[i].1.Obj? then Ok(Criteria(rules[..i]).value + RuleItems(rules[i].0, rules[i].1))
              else Err(NoGetOn(rules[i].1))
  {
    assert rules[..i + 1][..i] == rules[..i];
  }

  /** One pass of the rule loop: the rule's items appended, or the failure of a configuration that is not a mapping. */
  method AppendRule(parts0: seq<Value>, name: string, ruleConfig: Value) returns (r: Result<seq<Value>, Error>)
    ensures r.Ok? <==> ruleConfig.Obj?
    ensures r.Ok? ==> r.value == parts0 + RuleItems(name, ruleConfig)
    ensures r.Err? ==> r.error == NoGetOn(ruleConfig)
  {
    if !ruleConfig.Obj? {
      return Err(NoGetOn(ruleConfig));
    }
    var parts := parts0;
    if Truthy(FieldOr(ruleConfig, "enabled", Bool(true))) {
      parts := parts + [Str(Heading(name))];
      parts := parts + [FieldOr(ruleConfig, "prompt", Str(""))];
    }
    return Ok(parts);
  }

  /** The rule loop of `_build_review_prompt`: a heading and the prompt of each enabled rule, appended in rule order. */
  method AppendCriteria(parts0: seq<Value>, rules: Dict<string, Value>) returns (r: Result<seq<Value>, Error>)
    ensures r.Ok? <==> Criteria(rules).Ok?
    ensures r.Ok? ==> r.value == parts0 + Criteria(rules).value
    ensures r.Err? ==> r.error == Criteria(rules).error
  {
    var parts := parts0;
    var i := 0;
    while i < |rules|
      invariant 0 <= i <= |rules|
      invariant Criteria(rules[..i]).Ok?
      invariant parts == parts0 + Criteria(rules[..i]).value
    {
      CriteriaStep(rules, i);
      var (name, ruleConfig) := rules[i];
      var step := AppendRule(parts, name, ruleConfig);
      if step.Err? {
        CriteriaErrPrefix(rules, i + 1);
        return Err(step.error);
      }
      parts := step.value;
      i := i + 1;
    }
    assert rules[..i] == rules;
    return Ok(parts);
  }

  /** `_build_review_prompt` */
  method BuildReviewPrompt(filename: string, change: GitOperations.FileChange, rules: Dict<string, Value>, s: Settings)
    returns (prompt: Result<string, Error>)
    ensures prompt == ReviewPrompt(filename, change, rules, s)
  {
    var parts := AppendCriteria(Strs(PromptHead(filename, change)), rules);
    if parts.Err? {
      return Err(parts.error);
    }
    prompt := JoinLines(parts.value + Strs(PromptTail(s)));
  }

  // ---------------------------------------------------------------------
  // One file
  // ---------------------------------------------------------------------

  /** The last part of `_review_single_file`: build the file's prompt, ask the model with it, then parse its answer. */
  function Asked(env: Env, filename: string, change: GitOperations.FileChange, rules: Dict<string, Value>): Result<FileReviewResult, Error> {
    var prompt := ReviewPrompt(filename, change, rules, env.settings);
    if prompt.Err? then Err(prompt.error)
    else
      match env.invoke(prompt.value, SystemPrompt)
      case Err(e) => Err(e)
      case Ok(response) => Ok(ParsedResponse(filename, response, env.decode, env.settings))
  }

  /** `_review_single_file`: an exception from a collaborator propagates as `Err`. */
  function SingleFileReview(env: Env, filename: string, change: GitOperations.FileChange): Result<FileReviewResult, Error> {
    var templates := env.templatesFor(filename);
    if templates == [] then Ok(EmptyFileResult(filename))
    else
      match env.loadRules(filename, templates)
      case Err(e) => Err(e)
      case Ok(rules) => if rules == [] then Ok(EmptyFileResult(filename)) else Asked(env, filename, change, rules)
  }

  /** With no template or no rule for the file the model is not asked and the result is empty. */
  lemma NoRulesNoCall(env: Env, filename: string, change: GitOperations.FileChange)
    requires env.templatesFor(filename) == []
             || (env.loadRules(filename, env.templatesFor(filename)) == Ok([]))
    ensures SingleFileReview(env, filename, change) == Ok(EmptyFileResult(filename))
  {
  }

  /** The prompt and the `try` block of `_review_single_file`. */
  method AskModel(env: Env, filename: string, change: GitOperations.FileChange, rules: Dict<string, Value>)
    returns (r: Result<FileReviewResult, Error>)
    ensures r == Asked(env, filename, change, rules)
  {
    var prompt := BuildReviewPrompt(filename, change, rules, env.settings);
    if prompt.Err? {
      return Err(prompt.error);
    }
    var response := env.invoke(prompt.value, SystemPrompt);
    if response.Err? {
      return Err(response.error);
    }
    var result := ParseReviewResponse(filename, response.value, env.decode, env.settings);
    return Ok(result);
  }

  /** `_review_single_file` */
  method ReviewSingleFile(env: Env, filename: string, change: GitOperations.FileChange) returns (r: Result<FileReviewResult, Error>)
    ensures r == SingleFileReview(env, filename, change)
  {
    var templates := env.templatesFor(filename);
    if templates == [] {
      return Ok(EmptyFileResult(filename));
    }
    var rules := env.loadRules(filename, templates);
    if rules.Err? {
      return Err(rules.error);
    }
    if rules.value == [] {
      return Ok(EmptyFileResult(filename));
    }
    r := AskModel(env, filename, change, rules.value);
  }

  // ---------------------------------------------------------------------
  // Many files
  // ---------------------------------------------------------------------

  /** A failed review becomes the file's error result, with the exception's text. */
  function Isolate(filename: string, r: Result<FileReviewResult, Error>): FileReviewResult {
    match r
    case Ok(result) => result
    case Err(e) => ErrorResult(filename, Message(e))
  }

  type Review = (string, GitOperations.FileChange) -> Result<FileReviewResult, Error>

  /** The review the engine performs for each file. */
  function ReviewIn(env: Env): Review {
    (filename, change) => SingleFileReview(env, filename, change)
  }

  /** Each file paired with its isolated result, in input order. */
  function Reviewed(changes: GitOperations.Changes, review: Review): (r: Dict<string, FileReviewResult>)
    ensures |r| == |changes|
  {
    if changes == [] then []
    else [(changes[0].0, Isolate(changes[0].0, review(changes[0].0, changes[0].1)))] + Reviewed(changes[1..], review)
  }

  /** The `i`-th entry is the `i`-th file with its own isolated result. */
  lemma {:induction false} ReviewedAt(changes: GitOperations.Changes, review: Review, i: int)
    requires 0 <= i < |changes|
    ensures Reviewed(changes, review)[i] == (changes[i].0, Isolate(changes[i].0, review(changes[i].0, changes[i].1)))
  {
    if i > 0 {
      ReviewedAt(changes[1..], review, i - 1);
    }
  }

  /** `file_results[filename] = result` for each file in turn, starting from `acc`. */
  function FileResultsFrom(acc: Dict<string, FileReviewResult>, changes: GitOperations.Changes, review: Review): Dict<string, FileReviewResult> {
    Update(acc, Reviewed(changes, review))
  }

  lemma {:induction false} ReviewedSplit(changes: GitOperations.Changes, review: Review, k: nat)
    requires k <= |changes|
    ensures Reviewed(changes, review) == Reviewed(changes[..k], review) + Reviewed(changes[k..], review)
  {
    if k > 0 {
      ReviewedSplit(changes[1..], review, k - 1);
      assert changes[1..][..k - 1] == changes[..k][1..];
      assert changes[1..][k - 1..] == changes[k..];
    } else {
      assert changes[k..] == changes;
    }
  }

  /** Distinct filenames give distinct keys, and the keys are the filenames in input order. */
  lemma ReviewedKeys(changes: GitOperations.Changes, review: Review)
    ensures Keys(Reviewed(changes, review)) == Keys(changes)
    ensures UniqueKeys(changes) ==> UniqueKeys(Reviewed(changes, review))
  {
    var r := Reviewed(changes, review);
    forall i | 0 <= i < |r| ensures r[i].0 == changes[i].0 {
      ReviewedAt(changes, review, i);
    }
  }

  /** The result map has exactly the input files as keys, in input order, each with its own isolated result. */
  lemma FileResultsKeys(changes: GitOperations.Changes, review: Review)
    requires UniqueKeys(changes)
    ensures FileResultsFrom([], changes, review) == Reviewed(changes, review)
    ensures Keys(FileResultsFrom([], changes, review)) == Keys(changes)
  {
    var r := Reviewed(changes, review);
    ReviewedKeys(changes, review);
    UpdateFresh([], r);
    assert [] + r == r;
  }

  /** Each file's result depends only on its own review: a failure is isolated to that file. */
  lemma FileResultIsolated(changes: GitOperations.Changes, review: Review, k: int)
    requires UniqueKeys(changes) && 0 <= k < |changes|
    ensures Get(FileResultsFrom([], changes, review), changes[k].0)
            == Some(Isolate(changes[k].0, review(changes[k].0, changes[k].1)))
  {
    FileResultsKeys(changes, review);
    ReviewedKeys(changes, review);
    ReviewedAt(changes, review, k);
    GetMember(Reviewed(changes, review), k);
  }

  /** `_review_files_sequential` and `_review_file_batch`: the same per-file loop. */
  method ReviewFiles(env: Env, changes: GitOperations.Changes) returns (fileResults: Dict<string, FileReviewResult>)
    ensures fileResults == FileResultsFrom([], changes, ReviewIn(env))
  {
    fileResults := [];
    var i := 0;
    while i < |changes|
      invariant 0 <= i <= |changes|
      invariant FileResultsFrom([], changes, ReviewIn(env)) == FileResultsFrom(fileResults, changes[i..], ReviewIn(env))
    {
      var (filename, change) := changes[i];
      var result := ReviewSingleFile(env, filename, change);
      assert changes[i..][1..] == changes[i + 1..];
      if result.Ok? {
        fileResults := Put(fileResults, filename, result.value);
      } else {
        fileResults := Put(fileResults, filename, ErrorResult(filename, Message(result.error)));
      }
      i := i + 1;
    }
    assert Reviewed(changes[i..], ReviewIn(env)) == [];
  }

  /** The consecutive slices of `batch_size` files; the last may be shorter. */
  function Batches<T>(items: seq<T>, size: int): (r: seq<seq<T>>)
    requires size > 0
    decreases |items|
  {
    if items == [] then []
    else if |items| <= size then [items]
    else [items[..size]] + Batches(items[size..], size)
  }

  function Flatten<T>(parts: seq<seq<T>>): seq<T> {
    if parts == [] then [] else parts[0] + Flatten(parts[1..])
  }

  /** Batches are non-empty, full except possibly the last, and together they are the files in order. */
  lemma {:induction false} BatchesSpec<T>(items: seq<T>, size: int)
    requires size > 0
    ensures Flatten(Batches(items, size)) == items
    ensures forall i :: 0 <= i < |Batches(items, size)| ==> 0 < |Batches(items, size)[i]| <= size
    ensures forall i :: 0 <= i < |Batches(items, size)| - 1 ==> |Batches(items, size)[i]| == size
    decreases |items|
  {
    if items != [] && |items| > size {
      BatchesSpec(items[size..], size);
      var b := Batches(items, size);
      var rest := Batches(items[size..], size);
      assert b == [items[..size]] + rest;
      assert b[1..] == rest;
      assert items == items[..size] + items[size..];
      forall i | 1 <= i < |b| ensures b[i] == rest[i - 1] {
      }
    } else if items != [] {
      assert Batches(items, size) == [items];
      assert Flatten([items]) == items + Flatten([]);
    }
  }

  /** `file_results.update(batch_results)` for each batch in turn. */
  function UpdateBatches(acc: Dict<string, FileReviewResult>, batches: seq<GitOperations.Changes>, review: Review): Dict<string, FileReviewResult>
    decreases |batches|
  {
    if batches == [] then acc
    else UpdateBatches(Update(acc, FileResultsFrom([], batches[0], review)), batches[1..], review)
  }

  /** `_review_files_parallel` taken batch by batch; a zero batch size makes `range` raise, a negative one reviews nothing. */
  function BatchedResults(changes: GitOperations.Changes, size: int, review: Review): Result<Dict<string, FileReviewResult>, Error> {
    if size == 0 then Err(BuiltinError("ValueError", "range() arg 3 must not be zero"))
    else if size < 0 then Ok([])
    else Ok(UpdateBatches([], Batches(changes, size), review))
  }

  /** The first batch holds the first `batch_size` files, or all of them when there are fewer. */
  lemma BatchesFirst<T>(items: seq<T>, size: int, k: int)
    requires size > 0 && items != [] && k == (if |items| <= size then |items| else size)
    ensures Batches(items, size) == [items[..k]] + Batches(items[k..], size)
  {
    if |items| <= size {
      assert items[..k] == items && items[k..] == [];
    }
  }

  /** One step of the batch loop: merge the results of the files from `i` to `end`, then go on from `end`. */
  lemma BatchStep(acc: Dict<string, FileReviewResult>, changes: GitOperations.Changes, i: int, end: int, size: int, review: Review)
    requires size > 0 && 0 <= i < |changes| && end == (if i + size <= |changes| then i + size else |changes|)
    ensures UpdateBatches(acc, Batches(changes[i..], size), review)
            == UpdateBatches(Update(acc, FileResultsFrom([], changes[i..end], review)), Batches(changes[end..], size), review)
  {
    var items := changes[i..];
    assert changes[i..end] == items[..end - i] && changes[end..] == items[end - i..];
    BatchesFirst(items, size, end - i);
    var batches := Batches(items, size);
    assert batches[0] == items[..end - i] && batches[1..] == Batches(items[end - i..], size);
  }

  lemma UniqueSplit<V>(m: Dict<string, V>, k: nat)
    requires UniqueKeys(m) && k <= |m|
    ensures UniqueKeys(m[..k]) && UniqueKeys(m[k..])
  {
    var a := m[..k];
    var b := m[k..];
    forall i, j | 0 <= i < j < |a| ensures a[i].0 != a[j].0 { assert a[i] == m[i] && a[j] == m[j]; }
    forall i, j | 0 <= i < j < |b| ensures b[i].0 != b[j].0 { assert b[i] == m[k + i] && b[j] == m[k + j]; }
  }

  /** Reviewing a prefix of the files and then the rest is reviewing them all. */
  lemma FileResultsAppend(acc: Dict<string, FileReviewResult>, changes: GitOperations.Changes, k: nat, review: Review)
    requires k <= |changes|
    ensures FileResultsFrom(acc, changes, review) == FileResultsFrom(FileResultsFrom(acc, changes[..k], review), changes[k..], review)
  {
    ReviewedSplit(changes, review, k);
    UpdateAppend(acc, Reviewed(changes[..k], review), Reviewed(changes[k..], review));
  }

  /** Reviewing in batches gives the same results, in the same order, as reviewing file by file. */
  lemma {:induction false} BatchedIsSequential(acc: Dict<string, FileReviewResult>, changes: GitOperations.Changes, size: int, review: Review)
    requires size > 0 && UniqueKeys(changes)
    ensures UpdateBatches(acc, Batches(changes, size), review) == FileResultsFrom(acc, changes, review)
    decreases |changes|
  {
    if changes != [] {
      var k := if |changes| <= size then |changes| else size;
      var batch := changes[..k];
      var rest := changes[k..];
      var acc' := FileResultsFrom(acc, batch, review);
      UniqueSplit(changes, k);
      BatchesFirst(changes, size, k);
      var batches := Batches(changes, size);
      assert batches[0] == batch && batches[1..] == Batches(rest, size);
      assert Update(acc, FileResultsFrom([], batch, review)) == acc' by {
        FileResultsKeys(batch, review);
      }
      assert UpdateBatches(acc, batches, review) == UpdateBatches(acc', Batches(rest, size), review);
      BatchedIsSequential(acc', rest, size, review);
      FileResultsAppend(acc, changes, k, review);
    }
  }

  /** `_review_files_parallel` without the thread pool: batches reviewed and merged in batch order. */
  method ReviewFilesInBatches(env: Env, changes: GitOperations.Changes, size: int)
    returns (r: Result<Dict<string, FileReviewResult>, Error>)
    ensures r == BatchedResults(changes, size, ReviewIn(env))
  {
    if size == 0 {
      return Err(BuiltinError("ValueError", "range() arg 3 must not be zero"));
    }
    if size < 0 {
      return Ok([]);
    }
    var fileResults := [];
    var i := 0;
    while i < |changes|
      invariant 0 <= i <= |changes|
      invariant UpdateBatches([], Batches(changes, size), ReviewIn(env)) == UpdateBatches(fileResults, Batches(changes[i..], size), ReviewIn(env))
      decreases |changes| - i
    {
      var end := if i + size <= |changes| then i + size else |changes|;
      var batch := changes[i..end];
      var batchResults := ReviewFiles(env, batch);
      BatchStep(fileResults, changes, i, end, size, ReviewIn(env));
      fileResults := Update(fileResults, batchResults);
      i := end;
    }
    assert changes[i..] == [];
    return Ok(fileResults);
  }

  // ---------------------------------------------------------------------
  // The run
  // ---------------------------------------------------------------------

  /** `_create_empty_result` */
  const EmptyResult := ReviewResult([], 0, 0, 0, 0, 0, 0, 0, 0.0, "No files to review")

  /** `sum(field(result) for result in file_results.values())` */
  function Sum(files: Dict<string, FileReviewResult>, field: FileReviewResult -> int): int {
    if files == [] then 0 else Sum(files[..|files| - 1], field) + field(files[|files| - 1].1)
  }

  function SumCost(files: Dict<string, FileReviewResult>): real {
    if files == [] then 0.0 else SumCost(files[..|files| - 1]) + files[|files| - 1].1.costEstimate
  }

  /** The total number of issues in all the file results. */
  function IssueCount(files: Dict<string, FileReviewResult>): nat {
    if files == [] then 0 else IssueCount(files[..|files| - 1]) + |files[|files| - 1].1.issues|
  }

  /** `_aggregate_results` */
  function Aggregate(files: Dict<string, FileReviewResult>): ReviewResult {
    var totalIssues := Sum(files, (r: FileReviewResult) => r.totalIssues);
    var totalErrors := Sum(files, (r: FileReviewResult) => r.errorCount);
    var totalWarnings := Sum(files, (r: FileReviewResult) => r.warningCount);
    var totalInfo := Sum(files, (r: FileReviewResult) => r.infoCount);
    var totalSuggestions := Sum(files, (r: FileReviewResult) => r.suggestionCount);
    var summary :=
      if totalIssues == 0 then "✅ No issues found in " + IntToString(|files|) + " files"
      else "Found " + IntToString(totalIssues) + " issues in " + IntToString(|files|) + " files: "
           + IntToString(totalErrors) + " errors, " + IntToString(totalWarnings) + " warnings, "
           + IntToString(totalInfo) + " info, " + IntToString(totalSuggestions) + " suggestions";
    ReviewResult(files, |files|, totalIssues, totalErrors, totalWarnings, totalInfo, totalSuggestions,
                 Sum(files, (r: FileReviewResult) => r.tokensUsed), SumCost(files), summary)
  }

  /** Every file result is consistent. */
  predicate AllConsistent(files: Dict<string, FileReviewResult>) {
    forall i :: 0 <= i < |files| ==> Consistent(files[i].1)
  }

  /**
   * Over consistent file results the run totals agree: the issue total is the
   * number of issues in all files and the sum of the four severity totals.
   */
  lemma {:induction false} AggregateTotals(files: Dict<string, FileReviewResult>)
    requires AllConsistent(files)
    ensures var r := Aggregate(files);
            && r.totalIssues == IssueCount(files)
            && r.totalIssues == r.totalErrors + r.totalWarnings + r.totalInfo + r.totalSuggestions
  {
    if files != [] {
      var n := |files| - 1;
      var init := files[..n];
      assert AllConsistent(init) by {
        forall i | 0 <= i < n ensures Consistent(init[i].1) { assert init[i] == files[i]; }
      }
      AggregateTotals(init);
      ConsistentTotals(files[n].1);
    }
  }

  /** The summary says no issues exactly when the issue total is zero. */
  lemma AggregateSummary(files: Dict<string, FileReviewResult>)
    ensures var r := Aggregate(files);
            StartsWith(r.summary, "✅ No issues found in ") <==> r.totalIssues == 0
  {
    var r := Aggregate(files);
    if r.totalIssues != 0 {
      assert r.summary[0] == 'F';
    }
  }

  /** The file results of `review_changes`: the batch path for several files when parallel processing is on, else the sequential one. */
  function RunFiles(changes: GitOperations.Changes, s: Settings, review: Review): Result<Dict<string, FileReviewResult>, Error> {
    if s.parallelProcessing && |changes| > 1 then BatchedResults(changes, s.batchSize, review)
    else Ok(FileResultsFrom([], changes, review))
  }

  /**
   * With a positive batch size both paths give the same results: exactly one
   * per changed file, under its own name and in input order.
   */
  lemma RunFilesSpec(changes: GitOperations.Changes, s: Settings, review: Review)
    requires UniqueKeys(changes) && s.batchSize > 0
    ensures RunFiles(changes, s, review) == Ok(FileResultsFrom([], changes, review))
    ensures Keys(RunFiles(changes, s, review).value) == Keys(changes)
  {
    BatchedIsSequential([], changes, s.batchSize, review);
    FileResultsKeys(changes, review);
  }

  /** A zero batch size makes the batch path fail; a negative one leaves every file unreviewed. */
  lemma RunFilesBadBatchSize(changes: GitOperations.Changes, s: Settings, review: Review)
    requires s.parallelProcessing && |changes| > 1 && s.batchSize <= 0
    ensures s.batchSize == 0 ==> RunFiles(changes, s, review).Err?
    ensures s.batchSize < 0 ==> RunFiles(changes, s, review) == Ok([])
  {
  }

  /** `review_changes`: no files short-circuits; otherwise the file results, then the totals. */
  function ReviewOf(env: Env, changes: GitOperations.Changes): Result<ReviewResult, Error> {
    if changes == [] then Ok(EmptyResult)
    else
      match RunFiles(changes, env.settings, ReviewIn(env))
      case Err(e) => Err(e)
      case Ok(files) => Ok(Aggregate(files))
  }

  /** `review_changes` */
  method ReviewChanges(env: Env, changes: GitOperations.Changes) returns (r: Result<ReviewResult, Error>)
    ensures r == ReviewOf(env, changes)
  {
    if changes == [] {
      return Ok(EmptyResult);
    }
    var fileResults;
    if env.settings.parallelProcessing && |changes| > 1 {
      var batched := ReviewFilesInBatches(env, changes, env.settings.batchSize);
      if batched.Err? {
        return Err(batched.error);
      }
      fileResults := batched.value;
    } else {
      fileResults := ReviewFiles(env, changes);
    }
    assert RunFiles(changes, env.settings, ReviewIn(env)) == Ok(fileResults);
    return Ok(Aggregate(fileResults));
  }
}
