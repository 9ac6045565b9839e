/**
 * `ConfigValidator`: the checks that run after the JSON schema has accepted
 * a configuration, and the string predicates behind them.  The schema itself
 * is not modelled: its verdict is a parameter, and a value the schema would
 * reject for its type is read here as the section's default.
 */
module Validator {
  import opened Wrappers
  import opened Strings
  import opened Json
  import Logging
  import OrderedMap

  // ---------------------------------------------------------------------
  // Character classes and the `^[...]+$` patterns
  // ---------------------------------------------------------------------

  /** `[a-zA-Z0-9_-]` */
  predicate IsNameChar(c: char) {
    ('a' <= c <= 'z') || ('A' <= c <= 'Z') || ('0' <= c <= '9') || c == '_' || c == '-'
  }

  /** `[a-z0-9-]` */
  predicate IsRegionChar(c: char) {
    ('a' <= c <= 'z') || ('0' <= c <= '9') || c == '-'
  }

  /** A non-empty run of characters of one class: `^[class]+` up to the very end of the text. */
  predicate Run(s: string, cls: char -> bool) {
    |s| > 0 && forall i :: 0 <= i < |s| ==> cls(s[i])
  }

  /**
   * `re.match('^[class]+$', s)` as Python evaluates it: `$` also matches
   * just before a newline that ends the text, so one trailing newline is
   * accepted after the run.
   */
  predicate DollarMatch(s: string, cls: char -> bool) {
    Run(s, cls) || (|s| >= 2 && s[|s| - 1] == '\n' && Run(s[..|s| - 1], cls))
  }

  /** The pattern as Python reads it accepts the run, and the run followed by one newline, and nothing else. */
  lemma DollarMatchSpec(s: string, cls: char -> bool)
    requires !cls('\n')
    ensures DollarMatch(s, cls) <==> Run(s, cls) || (s != [] && s[|s| - 1] == '\n' && Run(s[..|s| - 1], cls))
    ensures Run(s, cls) ==> !DollarMatch(s + "\n\n", cls)
  {
    if Run(s, cls) {
      var t := s + "\n\n";
      assert t[|t| - 2] == '\n';
      assert !Run(t, cls);
      assert t[..|t| - 1] == s + "\n";
      assert (s + "\n")[|s|] == '\n';
    }
  }

  // ---------------------------------------------------------------------
  // The string predicates
  // ---------------------------------------------------------------------

  /** `_is_valid_template_name` as written: `re.match(r'^[a-zA-Z0-9_-]+$', template)` on a non-empty name. */
  predicate TemplateNameAsWritten(template: string) {
    template != [] && DollarMatch(template, IsNameChar)
  }

  /** `_is_valid_template_name` as its documentation intends: letters, digits, `_` and `-` only. */
  predicate IsValidTemplateName(template: string) {
    Run(template, IsNameChar)
  }

  /** The written check lets a template name with a trailing newline through. */
  lemma TemplateNameTrailingNewline()
    ensures TemplateNameAsWritten("security\n")
    ensures !IsValidTemplateName("security\n")
  {
    assert "security\n"[..8] == "security";
    assert Run("security", IsNameChar);
    assert !IsNameChar("security\n"[8]);
  }

  /** The intended check accepts exactly the names made of letters, digits, `_` and `-`, and the written one accepts those too. */
  lemma TemplateNameSpec(template: string)
    ensures IsValidTemplateName(template) <==> template != [] && forall i :: 0 <= i < |template| ==> IsNameChar(template[i])
    ensures IsValidTemplateName(template) ==> TemplateNameAsWritten(template)
    ensures TemplateNameAsWritten(template) && !IsValidTemplateName(template)
            ==> template[|template| - 1] == '\n' && IsValidTemplateName(template[..|template| - 1])
  {
  }

  /** The region test of `_validate_bedrock_config` as written: `re.match(r'^[a-z0-9-]+$', region)`. */
  predicate RegionFormatAsWritten(region: string) {
    DollarMatch(region, IsRegionChar)
  }

  /** The region test as intended: lower-case letters, digits and `-` only. */
  predicate IsValidRegionFormat(region: string) {
    Run(region, IsRegionChar)
  }

  /** The written check lets a region with a trailing newline through. */
  lemma RegionTrailingNewline()
    ensures RegionFormatAsWritten("us-east-1\n")
    ensures !IsValidRegionFormat("us-east-1\n")
  {
    assert "us-east-1\n"[..9] == "us-east-1";
    assert Run("us-east-1", IsRegionChar);
    assert !IsRegionChar("us-east-1\n"[9]);
  }

  /** The characters `_is_valid_branch_name` refuses anywhere in a name. */
  predicate IsForbiddenBranchChar(c: char) {
    c == '~' || c == '^' || c == ':' || c == '?' || c == '*' || c == '[' || c == '\\' || c == ' '
  }

  /** `any(char in branch for char in invalid_chars)` */
  predicate HasForbiddenChar(branch: string) {
    exists i :: 0 <= i < |branch| && IsForbiddenBranchChar(branch[i])
  }

  /** `_is_valid_branch_name` */
  predicate IsValidBranchName(branch: string) {
    if branch == [] then false
    else if HasForbiddenChar(branch) then false
    else if StartsWith(branch, ".") || branch[|branch| - 1] == '.' then false
    else if Contains(branch, "..") || Contains(branch, "//") then false
    else true
  }

  /** No two neighbouring characters are both `c`. */
  predicate NoDoubled(s: string, c: char) {
    forall i :: 0 <= i < |s| - 1 ==> !(s[i] == c && s[i + 1] == c)
  }

  /** `cc in s` for a doubled character holds exactly when two neighbours are both `c`. */
  lemma {:induction false} ContainsDoubled(s: string, c: char)
    ensures Contains(s, [c, c]) <==> !NoDoubled(s, c)
    decreases |s|
  {
    if s != [] {
      ContainsDoubled(s[1..], c);
      if [c, c] <= s {
        assert s[0] == c && s[1] == c;
      }
      if !NoDoubled(s[1..], c) {
        var i :| 0 <= i < |s[1..]| - 1 && s[1..][i] == c && s[1..][i + 1] == c;
        assert s[i + 1] == c && s[i + 2] == c;
      }
      if !NoDoubled(s, c) {
        var i :| 0 <= i < |s| - 1 && s[i] == c && s[i + 1] == c;
        if i == 0 {
          assert s[..2] == [c, c];
        } else {
          assert s[1..][i - 1] == c && s[1..][i] == c;
        }
      }
    }
  }

  /**
   * The branch rule character by character: non-empty, no forbidden
   * character, no `.` at either end, and no `.` or `/` doubled.
   */
  lemma BranchNameSpec(branch: string)
    ensures IsValidBranchName(branch) <==>
      && branch != []
      && (forall i :: 0 <= i < |branch| ==> !IsForbiddenBranchChar(branch[i]))
      && branch[0] != '.' && branch[|branch| - 1] != '.'
      && NoDoubled(branch, '.') && NoDoubled(branch, '/')
  {
    ContainsDoubled(branch, '.');
    ContainsDoubled(branch, '/');
    assert ".." == ['.', '.'] && "//" == ['/', '/'];
    if branch != [] {
      assert StartsWith(branch, ".") <==> branch[0] == '.';
    }
  }

  /** `_is_valid_glob_pattern`: `fnmatch.translate` accepts every string, so only the empty pattern fails. */
  predicate IsValidGlobPattern(pattern: string) {
    pattern != []
  }

  /** `_is_valid_file_size`: the size pattern on the upper-cased, stripped text. */
  predicate IsValidFileSize(sizeStr: string) {
    Logging.SizeMatch(Logging.Normalised(sizeStr)).Some?
  }

  /** Any size `parse_file_size` accepts passes the validator: both apply the same pattern to the same text. */
  lemma ParsedSizeIsValid(sizeStr: string)
    requires Logging.ParseFileSize(sizeStr).Ok?
    ensures IsValidFileSize(sizeStr)
  {
  }

  /** A bare `K`, `M`, `G` or `T` passes the validator, yet `parse_file_size` rejects it. */
  lemma BareLetterValidButUnparsable(n: string, u: string)
    requires |n| > 0 && Logging.AllDigits(n) && |u| == 1 && Logging.IsScale(u[0])
    ensures IsValidFileSize(n + u)
    ensures Logging.ParseFileSize(n + u).Err?
  {
    Logging.BareLetterRejected(n, u);
  }

  /** The default `10MB` is a valid size. */
  lemma DefaultSizeValid()
    ensures IsValidFileSize("10MB")
  {
    assert "10MB" == "10" + "MB";
    Logging.WholeSizeMatched("10", "MB");
    Logging.NormalisedPlain("10", "MB");
  }

  const ClaudeRegions: seq<string> := ["us-east-1", "us-west-2", "eu-west-1"]
  const LlamaRegions: seq<string> := ["us-east-1", "us-west-2"]

  /** `_is_model_available_in_region` */
  predicate IsModelAvailableInRegion(model: string, region: string) {
    if StartsWith(model, "anthropic.claude") && region !in ClaudeRegions then false
    else if StartsWith(model, "meta.llama") && region !in LlamaRegions then false
    else true
  }

  /**
   * Claude models are available in three regions, Llama models in two, and
   * every other model everywhere; `us-east-1` therefore serves every model.
   */
  lemma RegionAvailability(model: string, region: string)
    ensures StartsWith(model, "anthropic.claude") ==> (IsModelAvailableInRegion(model, region) <==> region in ClaudeRegions)
    ensures StartsWith(model, "meta.llama") ==> (IsModelAvailableInRegion(model, region) <==> region in LlamaRegions)
    ensures !StartsWith(model, "anthropic.claude") && !StartsWith(model, "meta.llama") ==> IsModelAvailableInRegion(model, region)
    ensures IsModelAvailableInRegion(model, "us-east-1") && IsModelAvailableInRegion(model, "us-west-2")
  {
    if StartsWith(model, "anthropic.claude") {
      assert model[0] == 'a';
      assert !StartsWith(model, "meta.llama");
    }
  }

  // ---------------------------------------------------------------------
  // The section checks
  // ---------------------------------------------------------------------

  /** `config.get(name, {})` */
  function Section(config: Value, name: string): Value {
    FieldOr(config, name, EmptyObj)
  }

  /** The strings of a list value; the schema allows no other items. */
  function Strs(items: seq<Value>): (r: seq<string>)
    ensures |r| <= |items|
  {
    if items == [] then []
    else
      var last := items[|items| - 1];
      Strs(items[..|items| - 1]) + (if last.Str? then [last.s] else [])
  }

  /** `section.get(key, [])` read as a list of strings. */
  function StrList(section: Value, key: string): seq<string> {
    match Field(section, key)
    case Some(Arr(items)) => Strs(items)
    case _ => []
  }

  /** `_validate_bedrock_config`, with the region format test given. */
  function BedrockErrorsWith(bedrock: Value, formatOk: string -> bool): (r: seq<string>)
    ensures |r| <= 2
  {
    var region := StrFieldOr(bedrock, "region", "");
    var formatErrors := if region != [] && !formatOk(region) then ["Invalid AWS region format: " + region] else [];
    var model := StrFieldOr(bedrock, "model", "");
    var modelRegion := StrFieldOr(bedrock, "region", "us-east-1");
    formatErrors
    + (if model != [] && !IsModelAvailableInRegion(model, modelRegion)
       then ["Model " + model + " may not be available in region " + modelRegion] else [])
  }

  /** `_validate_bedrock_config` as written, with the `$`-tolerant region test. */
  function BedrockErrors(bedrock: Value): seq<string> {
    BedrockErrorsWith(bedrock, RegionFormatAsWritten)
  }

  /** `_validate_bedrock_config` with the intended region test. */
  function BedrockErrorsCorrected(bedrock: Value): seq<string> {
    BedrockErrorsWith(bedrock, IsValidRegionFormat)
  }

  /**
   * The format message, naming the region, is reported exactly when a
   * region is given and fails the format test, and then it comes first.
   */
  lemma BedrockFormatMessage(bedrock: Value, formatOk: string -> bool)
    ensures var region := StrFieldOr(bedrock, "region", "");
            var r := BedrockErrorsWith(bedrock, formatOk);
            && (("Invalid AWS region format: " + region) in r <==> region != [] && !formatOk(region))
            && (region != [] && !formatOk(region) ==> r[0] == "Invalid AWS region format: " + region)
  {
    var region := StrFieldOr(bedrock, "region", "");
    var m := "Invalid AWS region format: " + region;
    var r := BedrockErrorsWith(bedrock, formatOk);
    assert m[0] == 'I';
    forall k | 0 <= k < |r| && !(region != [] && !formatOk(region))
      ensures r[k] != m
    {
      assert r[k][0] == 'M';
    }
  }

  /**
   * As intended, a given region is reported exactly when one of its
   * characters is outside `[a-z0-9-]`.
   */
  lemma BedrockFormatCorrected(bedrock: Value)
    ensures var region := StrFieldOr(bedrock, "region", "");
            ("Invalid AWS region format: " + region) in BedrockErrorsCorrected(bedrock)
            <==> region != [] && exists i :: 0 <= i < |region| && !IsRegionChar(region[i])
  {
    BedrockFormatMessage(bedrock, IsValidRegionFormat);
  }

  /**
   * As written, a given region is reported exactly when it is neither a run
   * of `[a-z0-9-]` nor such a run followed by one newline.
   */
  lemma BedrockFormatAsWritten(bedrock: Value)
    ensures var region := StrFieldOr(bedrock, "region", "");
            ("Invalid AWS region format: " + region) in BedrockErrors(bedrock)
            <==> region != [] && !IsValidRegionFormat(region)
                 && !(region[|region| - 1] == '\n' && IsValidRegionFormat(region[..|region| - 1]))
  {
    var region := StrFieldOr(bedrock, "region", "");
    BedrockFormatMessage(bedrock, RegionFormatAsWritten);
    DollarMatchSpec(region, IsRegionChar);
  }

  /** Without a region the Bedrock section is always accepted: no format to check, and `us-east-1` serves every model. */
  lemma BedrockWithoutRegion(bedrock: Value)
    requires Field(bedrock, "region").None?
    ensures BedrockErrors(bedrock) == []
  {
    RegionAvailability(StrFieldOr(bedrock, "model", ""), "us-east-1");
  }

  /** A region in the right format for a model served there gives no error; a model not served there gives exactly one. */
  lemma BedrockModelCheck(bedrock: Value, model: string, region: string)
    requires Field(bedrock, "model") == Some(Str(model)) && model != []
    requires Field(bedrock, "region") == Some(Str(region)) && RegionFormatAsWritten(region)
    ensures BedrockErrors(bedrock) == [] <==> IsModelAvailableInRegion(model, region)
    ensures !IsModelAvailableInRegion(model, region)
            ==> BedrockErrors(bedrock) == ["Model " + model + " may not be available in region " + region]
  {
    assert StrFieldOr(bedrock, "region", "") == region;
    assert StrFieldOr(bedrock, "region", "us-east-1") == region;
    assert StrFieldOr(bedrock, "model", "") == model;
  }

  /** The branch part of `_validate_git_config`. */
  function BranchErrors(branch: string): (r: seq<string>)
    ensures r == [] <==> branch == [] || IsValidBranchName(branch)
  {
    if branch != [] && !IsValidBranchName(branch) then ["Invalid branch name: " + branch] else []
  }

  /** One message per invalid pattern of one kind, in list order. */
  function PatternErrors(kind: string, patterns: seq<string>): (r: seq<string>) {
    if patterns == [] then []
    else
      var last := patterns[|patterns| - 1];
      PatternErrors(kind, patterns[..|patterns| - 1])
      + (if !IsValidGlobPattern(last) then ["Invalid " + kind + " pattern: " + last] else [])
  }

  /** The number of empty patterns. */
  function EmptyCount(patterns: seq<string>): nat {
    if patterns == [] then 0
    else EmptyCount(patterns[..|patterns| - 1]) + (if patterns[|patterns| - 1] == [] then 1 else 0)
  }

  /** Exactly one message per empty pattern, each naming the kind. */
  lemma {:induction false} PatternErrorsSpec(kind: string, patterns: seq<string>)
    ensures |PatternErrors(kind, patterns)| == EmptyCount(patterns)
    ensures forall i :: 0 <= i < |PatternErrors(kind, patterns)| ==> PatternErrors(kind, patterns)[i] == "Invalid " + kind + " pattern: "
  {
    if patterns != [] {
      PatternErrorsSpec(kind, patterns[..|patterns| - 1]);
    }
  }

  const PatternKinds: seq<string> := ["exclude_patterns", "include_patterns"]

  /** The pattern messages for the given kinds, in order. */
  function KindErrors(git: Value, kinds: seq<string>): seq<string> {
    if kinds == [] then []
    else
      var last := kinds[|kinds| - 1];
      KindErrors(git, kinds[..|kinds| - 1]) + PatternErrors(last, StrList(git, last))
  }

  lemma KindErrorsPair(git: Value, a: string, b: string)
    ensures KindErrors(git, [a, b]) == PatternErrors(a, StrList(git, a)) + PatternErrors(b, StrList(git, b))
  {
    assert [a, b][..1] == [a] && [a][..0] == [];
    assert KindErrors(git, [a]) == PatternErrors(a, StrList(git, a));
  }

  /** `_validate_git_config` */
  function GitErrors(git: Value): seq<string> {
    BranchErrors(StrFieldOr(git, "default_compare_branch", "")) + KindErrors(git, PatternKinds)
  }

  /** The git section is accepted exactly when the branch is absent, empty or valid and no pattern is empty. */
  lemma GitErrorsSpec(git: Value)
    ensures var branch := StrFieldOr(git, "default_compare_branch", "");
            GitErrors(git) == [] <==>
              (branch == [] || IsValidBranchName(branch))
              && EmptyCount(StrList(git, "exclude_patterns")) == 0
              && EmptyCount(StrList(git, "include_patterns")) == 0
  {
    KindErrorsPair(git, "exclude_patterns", "include_patterns");
    PatternErrorsSpec("exclude_patterns", StrList(git, "exclude_patterns"));
    PatternErrorsSpec("include_patterns", StrList(git, "include_patterns"));
  }

  /** `templates if isinstance(templates, list) else [templates]` */
  function TemplateList(templates: Value): seq<string> {
    match templates
    case Arr(items) => Strs(items)
    case Str(s) => [s]
    case _ => []
  }

  /** One message per invalid template name, in list order. */
  function TemplateErrors(names: seq<string>): (r: seq<string>) {
    if names == [] then []
    else
      var last := names[|names| - 1];
      TemplateErrors(names[..|names| - 1])
      + (if !TemplateNameAsWritten(last) then ["Invalid template name: " + last] else [])
  }

  /** The number of invalid template names. */
  function InvalidCount(names: seq<string>): nat {
    if names == [] then 0
    else InvalidCount(names[..|names| - 1]) + (if TemplateNameAsWritten(names[|names| - 1]) then 0 else 1)
  }

  lemma {:induction false} TemplateErrorsCount(names: seq<string>)
    ensures |TemplateErrors(names)| == InvalidCount(names)
  {
    if names != [] {
      TemplateErrorsCount(names[..|names| - 1]);
    }
  }

  /** The messages for one `pattern: templates` entry of `rule_templates`. */
  function EntryErrors(pattern: string, templates: Value): seq<string> {
    (if !IsValidGlobPattern(pattern) then ["Invalid rule template pattern: " + pattern] else [])
    + TemplateErrors(TemplateList(templates))
  }

  /** The messages for the entries of `rule_templates`, in mapping order. */
  function RuleTemplateErrors(entries: seq<(string, Value)>): seq<string> {
    if entries == [] then []
    else
      var last := entries[|entries| - 1];
      RuleTemplateErrors(entries[..|entries| - 1]) + EntryErrors(last.0, last.1)
  }

  /** `_validate_review_config` */
  function ReviewErrors(review: Value): seq<string> {
    match Field(review, "rule_templates")
    case Some(Obj(entries)) => RuleTemplateErrors(entries)
    case _ => []
  }

  /** A single template name counts as the one-element list holding it. */
  lemma SingleTemplateAsList(pattern: string, name: string)
    ensures EntryErrors(pattern, Str(name)) == EntryErrors(pattern, Arr([Str(name)]))
  {
    assert Strs([Str(name)]) == Strs([]) + [name];
  }

  /** The number of messages an entry list gives: one per empty pattern and one per invalid template name. */
  function EntryProblems(entries: seq<(string, Value)>): nat {
    if entries == [] then 0
    else
      var last := entries[|entries| - 1];
      EntryProblems(entries[..|entries| - 1])
      + (if IsValidGlobPattern(last.0) then 0 else 1) + InvalidCount(TemplateList(last.1))
  }

  lemma {:induction false} RuleTemplateErrorsCount(entries: seq<(string, Value)>)
    ensures |RuleTemplateErrors(entries)| == EntryProblems(entries)
  {
    if entries != [] {
      RuleTemplateErrorsCount(entries[..|entries| - 1]);
      TemplateErrorsCount(TemplateList(entries[|entries| - 1].1));
    }
  }

  /** `_validate_ui_config` */
  function UiErrors(ui: Value): (r: seq<string>)
    ensures |r| <= 1
  {
    match Field(ui, "auto_approve_threshold")
    case Some(Int(threshold)) =>
      var maxIssues := IntFieldOr(ui, "max_display_issues", 20);
      if threshold > maxIssues then
        ["auto_approve_threshold (" + IntToString(threshold) + ") cannot be greater than max_display_issues ("
         + IntToString(maxIssues) + ")"]
      else []
    case _ => []
  }

  /** The UI section fails exactly when a threshold is set above the display limit, which defaults to 20. */
  lemma UiErrorsSpec(ui: Value)
    ensures UiErrors(ui) != [] <==>
      Field(ui, "auto_approve_threshold").Some? && Field(ui, "auto_approve_threshold").value.Int?
      && Field(ui, "auto_approve_threshold").value.i > IntFieldOr(ui, "max_display_issues", 20)
    ensures Field(ui, "max_display_issues").None? && Field(ui, "auto_approve_threshold") == Some(Int(21)) ==> UiErrors(ui) != []
  {
  }

  /** `_validate_logging_config` */
  function LoggingErrors(logging: Value): (r: seq<string>)
    ensures r == [] <==> IsValidFileSize(StrFieldOr(logging, "max_file_size", "10MB"))
  {
    var size := StrFieldOr(logging, "max_file_size", "10MB");
    if !IsValidFileSize(size) then ["Invalid file size format: " + size] else []
  }

  /** Without a `max_file_size` the logging section is accepted: the default `10MB` is valid. */
  lemma LoggingDefault(logging: Value)
    requires Field(logging, "max_file_size").None?
    ensures LoggingErrors(logging) == []
  {
    DefaultSizeValid();
  }

  /** `os.cpu_count() or 1` */
  function CpuCount(reported: Option<nat>): (n: nat)
    ensures n >= 1
  {
    if reported.None? || reported.value == 0 then 1 else reported.value
  }

  /** `_validate_performance_config`, with the processor count as a parameter. */
  function PerformanceErrors(performance: Value, reported: Option<nat>): (r: seq<string>)
    ensures r != [] <==> IntFieldOr(performance, "max_workers", 4) > 2 * CpuCount(reported)
  {
    var maxWorkers := IntFieldOr(performance, "max_workers", 4);
    var cpu := CpuCount(reported);
    if maxWorkers > cpu * 2 then
      ["max_workers (" + IntToString(maxWorkers) + ") is much higher than CPU count (" + IntToString(cpu)
       + "). Consider reducing for better performance."]
    else []
  }

  /** The default of four workers is accepted on any machine with at least two processors. */
  lemma PerformanceDefault(performance: Value, reported: Option<nat>)
    requires Field(performance, "max_workers").None? && CpuCount(reported) >= 2
    ensures PerformanceErrors(performance, reported) == []
  {
  }

  /** The messages of the six section checks, in the order `validate` runs them. */
  function SectionErrors(config: Value, reported: Option<nat>): seq<string> {
    BedrockErrors(Section(config, "bedrock")) + GitErrors(Section(config, "git"))
    + ReviewErrors(Section(config, "review")) + UiErrors(Section(config, "ui"))
    + LoggingErrors(Section(config, "logging")) + PerformanceErrors(Section(config, "performance"), reported)
  }

  /** `validate`: the schema's message alone, or the messages of the six section checks in order. */
  function Validation(config: Value, schemaError: Option<string>, reported: Option<nat>): (bool, seq<string>) {
    var errors :=
      if schemaError.Some? then ["Schema validation error: " + schemaError.value]
      else SectionErrors(config, reported);
    (errors == [], errors)
  }

  /** A configuration is valid exactly when there is no message; a schema failure gives exactly one and skips the other checks. */
  lemma ValidationSpec(config: Value, schemaError: Option<string>, reported: Option<nat>)
    ensures Validation(config, schemaError, reported).0 <==> Validation(config, schemaError, reported).1 == []
    ensures schemaError.Some? ==> Validation(config, schemaError, reported) == (false, ["Schema validation error: " + schemaError.value])
    ensures schemaError.None? ==>
      (Validation(config, schemaError, reported).0 <==>
        BedrockErrors(Section(config, "bedrock")) == [] && GitErrors(Section(config, "git")) == []
        && ReviewErrors(Section(config, "review")) == [] && UiErrors(Section(config, "ui")) == []
        && LoggingErrors(Section(config, "logging")) == [] && PerformanceErrors(Section(config, "performance"), reported) == [])
  {
  }

  // ---------------------------------------------------------------------
  // The checks as the program runs them
  // ---------------------------------------------------------------------

  /** The inner loop of `_validate_git_config`: one pattern list of one kind. */
  method AppendPatternErrors(errors0: seq<string>, kind: string, patterns: seq<string>) returns (errors: seq<string>)
    ensures errors == errors0 + PatternErrors(kind, patterns)
  {
    errors := errors0;
    var i := 0;
    while i < |patterns|
      invariant 0 <= i <= |patterns|
      invariant errors == errors0 + PatternErrors(kind, patterns[..i])
    {
      assert patterns[..i + 1][..i] == patterns[..i];
      if !IsValidGlobPattern(patterns[i]) {
        errors := errors + ["Invalid " + kind + " pattern: " + patterns[i]];
      }
      i := i + 1;
    }
    assert patterns[..i] == patterns;
  }

  lemma KindErrorsStep(git: Value, kinds: seq<string>, k: nat)
    requires k < |kinds|
    ensures KindErrors(git, kinds[..k + 1]) == KindErrors(git, kinds[..k]) + PatternErrors(kinds[k], StrList(git, kinds[k]))
  {
    assert kinds[..k + 1][..k] == kinds[..k];
  }

  /** The outer loop of `_validate_git_config`: the pattern lists of the given kinds, in order. */
  method AppendKindErrors(errors0: seq<string>, git: Value, kinds: seq<string>) returns (errors: seq<string>)
    ensures errors == errors0 + KindErrors(git, kinds)
  {
    errors := errors0;
    var k := 0;
    while k < |kinds|
      invariant 0 <= k <= |kinds|
      invariant errors == errors0 + KindErrors(git, kinds[..k])
    {
      var patterns := StrList(git, kinds[k]);
      KindErrorsStep(git, kinds, k);
      OrderedMap.AppendAssoc(errors0, KindErrors(git, kinds[..k]), PatternErrors(kinds[k], patterns));
      errors := AppendPatternErrors(errors, kinds[k], patterns);
      k := k + 1;
    }
    assert kinds[..k] == kinds;
  }

  /** `_validate_git_config` */
  method ValidateGitConfig(git: Value) returns (errors: seq<string>)
    ensures errors == GitErrors(git)
  {
    errors := BranchErrors(StrFieldOr(git, "default_compare_branch", ""));
    errors := AppendKindErrors(errors, git, PatternKinds);
  }

  /** The inner loop of `_validate_review_config`: the template names of one entry. */
  method AppendTemplateErrors(errors0: seq<string>, names: seq<string>) returns (errors: seq<string>)
    ensures errors == errors0 + TemplateErrors(names)
  {
    errors := errors0;
    var i := 0;
    while i < |names|
      invariant 0 <= i <= |names|
      invariant errors == errors0 + TemplateErrors(names[..i])
    {
      assert names[..i + 1][..i] == names[..i];
      if !TemplateNameAsWritten(names[i]) {
        errors := errors + ["Invalid template name: " + names[i]];
      }
      i := i + 1;
    }
    assert names[..i] == names;
  }

  /** The body of the outer loop of `_validate_review_config`: one `pattern: templates` entry. */
  method AppendEntry(errors0: seq<string>, pattern: string, templates: Value) returns (errors: seq<string>)
    ensures errors == errors0 + EntryErrors(pattern, templates)
  {
    errors := errors0;
    if !IsValidGlobPattern(pattern) {
      errors := errors + ["Invalid rule template pattern: " + pattern];
    }
    errors := AppendTemplateErrors(errors, TemplateList(templates));
  }

  lemma RuleTemplateErrorsStep(entries: seq<(string, Value)>, i: nat)
    requires i < |entries|
    ensures RuleTemplateErrors(entries[..i + 1]) == RuleTemplateErrors(entries[..i]) + EntryErrors(entries[i].0, entries[i].1)
  {
    assert entries[..i + 1][..i] == entries[..i];
  }

  /** The outer loop of `_validate_review_config`: the entries of `rule_templates`, in mapping order. */
  method AppendEntryErrors(errors0: seq<string>, entries: seq<(string, Value)>) returns (errors: seq<string>)
    ensures errors == errors0 + RuleTemplateErrors(entries)
  {
    errors := errors0;
    var i := 0;
    while i < |entries|
      invariant 0 <= i <= |entries|
      invariant errors == errors0 + RuleTemplateErrors(entries[..i])
    {
      RuleTemplateErrorsStep(entries, i);
      OrderedMap.AppendAssoc(errors0, RuleTemplateErrors(entries[..i]), EntryErrors(entries[i].0, entries[i].1));
      errors := AppendEntry(errors, entries[i].0, entries[i].1);
      i := i + 1;
    }
    assert entries[..i] == entries;
  }

  /** `_validate_review_config` */
  method ValidateReviewConfig(review: Value) returns (errors: seq<string>)
    ensures errors == ReviewErrors(review)
  {
    errors := [];
    match Field(review, "rule_templates")
    case Some(Obj(entries)) =>
      errors := AppendEntryErrors(errors, entries);
    case _ =>
  }

  /** `validate` */
  method Validate(config: Value, schemaError: Option<string>, reported: Option<nat>) returns (valid: bool, errors: seq<string>)
    ensures (valid, errors) == Validation(config, schemaError, reported)
  {
    if schemaError.Some? {
      errors := ["Schema validation error: " + schemaError.value];
    } else {
      var bedrock := BedrockErrors(Section(config, "bedrock"));
      var git := ValidateGitConfig(Section(config, "git"));
      var review := ValidateReviewConfig(Section(config, "review"));
      var ui := UiErrors(Section(config, "ui"));
      var logging := LoggingErrors(Section(config, "logging"));
      var performance := PerformanceErrors(Section(config, "performance"), reported);
      errors := bedrock + git + review + ui + logging + performance;
    }
    valid := |errors| == 0;
  }
}
