# ai-code-review-git-hook, modelled in Dafny

The repository is a git pre-push hook. Before a push it collects the changed files and
asks an AWS Bedrock model to review them against rule templates. It then reports the issues
found and blocks the push on errors. This project models the pipeline's decisions and proves
what they promise:

- `ChangeAnalyzer` (`analyzer.dfy`): triage of the changed files.
  - Each file goes to exactly one of the buckets filtered, excluded, binary or oversized.
  - The filtered set is capped by change size with a stable sort.
  - Also modelled: statistics, grouping by status and by file type, diff chunking, and the priority order.
- `GitOperations` (`operations.dfy`): parsing of the text git prints.
  - The push refs on the hook's standard input, stripping `refs/heads/`.
  - Added and removed diff lines.
  - The `--name-status` listing, including renames.
- `Config` (`manager.dfy`): the configuration held by `ConfigManager` as nested JSON-like maps.
  - Dotted-path get and set.
  - Deep merge.
  - Glob-to-template resolution with order-preserving de-duplication.
  - Environment overrides and the classification of their values.
- `Rules` (`rules.dfy`): `RuleProcessor` with its mutable template cache.
  - Loading templates in order (later wins) and keeping only enabled rules.
  - Per-file overrides and the rule accessors.
  - Template validation, creation and cache clearing.
- `Engine` (`engine.dfy`): `ReviewEngine`.
  - The sequential and batched paths, with per-file failure isolation.
  - The review prompt.
  - Extracting the `{...}` block from the model's answer.
  - Defaulting and coercing issue fields, the severity threshold and truncation.
  - Per-file counters and run totals.
- `Models` and `Client` (`models.dfy`, `client.dfy`).
  - The model catalogue with cost arithmetic and its queries.
  - Per-provider request building and response parsing.
  - Error classification and the exponential-backoff retry loop.
- Support modules:
  - `Exceptions`: the exception hierarchy, its messages and exit codes.
  - `Validator`: the configuration checks.
  - `Logging`: `parse_file_size`.
  - `Formatter`: terminal and Markdown text, and the counting helpers.
  - `ReviewModels`: the dataclasses.
- Shared definitions: `Json` (decoded JSON and YAML values), `OrderedMap` (Python's
  insertion-ordered dicts as association lists), `Glob` (an `fnmatch`-style matcher),
  `Sorting` (stable sort), `Counting`, `Strings` and `Wrappers`.

Money is exact `real`. Python's integers are unbounded, so `int` is used throughout.

## Model

| member | source | states |
|---|---|---|
| Exceptions.Message | src/ai_code_review/utils/exceptions.py:6-85 | `str(e)` is the class's fixed prefix, then the caller's message unchanged, then the optional detail suffix |
| Exceptions.UserAbort | src/ai_code_review/utils/exceptions.py:69-73 | `UserAbortError()` carries exactly the message "Operation aborted by user" |
| Exceptions.ExitCode | src/ai_code_review/utils/exceptions.py:9-85 | every subclass has an exit code between 1 and 6 (the base class keeps the code it is given, default 1) |
| Exceptions.ExitCodeIdentifiesClass | src/ai_code_review/utils/exceptions.py:14-85 | exit code 2 iff Bedrock, 4 iff network, 5 iff user abort, 6 iff timeout, 3 iff configuration or validation, 1 iff git |
| Exceptions.DetailShownIffGiven | src/ai_code_review/utils/exceptions.py:21-54 | the `(command: …)`, `(…)` and `(URL: …)` suffixes appear exactly when the optional argument is a non-empty string |
| Exceptions.ZeroTimeoutIsAbsent | src/ai_code_review/utils/exceptions.py:76-85 | a timeout of 0 seconds gives the same message as no timeout: "Operation timed out: " + message |
| Logging.SizeMatchSpec | src/ai_code_review/utils/logging.py:139-140 | the scanner for `^(\d+(?:\.\d+)?)\s*([KMGT]?B?)$` returns groups `p` exactly when `p` has the pattern's shape and spells the whole text (both directions) |
| Logging.SizeMatchSound | src/ai_code_review/utils/logging.py:139-140 | whatever the scan returns has the pattern's shape and spells the scanned text |
| Logging.SizeMatchComplete | src/ai_code_review/utils/logging.py:139-140 | every text of the pattern's shape is matched, with its own parts as the groups |
| Logging.LeadingDigits | src/ai_code_review/utils/logging.py:139 | `\d+` splits the text into a digit run and a rest that does not start with a digit |
| Logging.SplitFraction | src/ai_code_review/utils/logging.py:139 | `(?:\.\d+)?` takes a dot and a non-empty digit run, or nothing |
| Logging.SplitUnit | src/ai_code_review/utils/logging.py:139 | `\s*([KMGT]?B?)$` leaves white space and one of the unit spellings covering the rest |
| Logging.ParseFileSizeCaseInsensitive | src/ai_code_review/utils/logging.py:136 | lower-case and upper-case spellings of a size parse alike |
| Logging.ParseFileSizePadded | src/ai_code_review/utils/logging.py:136 | white space around the size text does not change the result |
| Logging.ParseWholeSize | src/ai_code_review/utils/logging.py:144-159 | a whole number with no unit or `B` is that many bytes; with `KB`/`MB`/`GB`/`TB` it is multiplied by 1024, 1024², 1024³ or 1024⁴ |
| Logging.BareLetterRejected | src/ai_code_review/utils/logging.py:145-157 | a bare `K`, `M`, `G` or `T` passes the pattern but raises `ValueError("Unknown size unit: …")` |
| Logging.MalformedRejected | src/ai_code_review/utils/logging.py:140-142 | text the pattern rejects raises `ValueError("Invalid file size format: …")` naming the upper-cased, stripped text |
| Logging.ParseFileSizeNonNegative | src/ai_code_review/utils/logging.py:144-159 | a parsed size is never negative |
| Logging.ScaledWhole | src/ai_code_review/utils/logging.py:159 | `int(number * multiplier)` is exact for a whole number |
| Logging.ScaledNonNegative | src/ai_code_review/utils/logging.py:159 | `int()` of a non-negative product is non-negative |
| Validator.DollarMatchSpec | src/ai_code_review/config/validator.py:320-326 | `re.match('^[class]+$', s)` accepts exactly a run of the class, optionally followed by one newline, and never two newlines |
| Validator.TemplateNameTrailingNewline | src/ai_code_review/config/validator.py:320-326 | the written check accepts `"security\n"`, which is not made of letters, digits, `_` and `-` |
| Validator.TemplateNameSpec | src/ai_code_review/config/validator.py:320-326 | the intended template-name check holds exactly for non-empty names of letters, digits, `_` and `-`; the written check accepts those and, beyond them, only such a name plus one trailing newline |
| Validator.RegionTrailingNewline | src/ai_code_review/config/validator.py:179-181 | the written region check accepts `"us-east-1\n"`, which is not made of lower-case letters, digits and `-` |
| Validator.ContainsDoubled | src/ai_code_review/config/validator.py:302 | `'..' in s` (or `'//'`) holds exactly when two neighbouring characters are both `.` (or `/`) |
| Validator.BranchNameSpec | src/ai_code_review/config/validator.py:289-305 | a branch name is valid exactly when it is non-empty, holds none of `~ ^ : ? * [ \ ` and space, neither starts nor ends with `.`, and has no `..` or `//` |
| Validator.ParsedSizeIsValid | src/ai_code_review/config/validator.py:328-335 | every size `parse_file_size` accepts passes the validator's size check |
| Validator.BareLetterValidButUnparsable | src/ai_code_review/config/validator.py:328-335 | a number followed by a bare `K`, `M`, `G` or `T` passes the validator although `parse_file_size` rejects it |
| Validator.DefaultSizeValid | src/ai_code_review/config/validator.py:249 | the default `10MB` is a valid size |
| Validator.RegionAvailability | src/ai_code_review/config/validator.py:272-287 | Claude models are available exactly in us-east-1, us-west-2 and eu-west-1, Llama models exactly in us-east-1 and us-west-2, every other model everywhere |
| Validator.BedrockErrorsWith | src/ai_code_review/config/validator.py:175-190 | for any region format test, at most two messages: one for the region format, one for availability |
| Validator.BedrockFormatMessage | src/ai_code_review/config/validator.py:179-181 | the format message naming the region is given exactly when a region is set and fails the format test, and then it comes first |
| Validator.BedrockFormatAsWritten | src/ai_code_review/config/validator.py:179-181 | as written, the format message is given exactly when a non-empty region is neither a run of `[a-z0-9-]` nor such a run plus one trailing newline |
| Validator.BedrockFormatCorrected | src/ai_code_review/config/validator.py:179-181 | with the intended check, the format message is given exactly when a non-empty region holds a character outside `[a-z0-9-]` |
| Validator.BedrockWithoutRegion | src/ai_code_review/config/validator.py:184-188 | without a region no message is given: the model is checked against `us-east-1`, which serves every model |
| Validator.BedrockModelCheck | src/ai_code_review/config/validator.py:175-190 | with a region that passes the written format check the section is accepted exactly when the model is available there, and otherwise the one message names model and region |
| Validator.BranchErrors | src/ai_code_review/config/validator.py:196-199 | no branch message exactly when the branch is empty or valid |
| Validator.PatternErrorsSpec | src/ai_code_review/config/validator.py:202-206 | one message per empty pattern, each `Invalid <kind> pattern: ` |
| Validator.GitErrorsSpec | src/ai_code_review/config/validator.py:192-208 | the git section is accepted exactly when the branch is absent, empty or valid and neither pattern list holds an empty pattern |
| Validator.AppendPatternErrors | src/ai_code_review/config/validator.py:204-206 | the inner loop appends exactly the messages of `PatternErrors` |
| Validator.AppendKindErrors | src/ai_code_review/config/validator.py:202-206 | the outer loop appends the messages for each kind in turn |
| Validator.ValidateGitConfig | src/ai_code_review/config/validator.py:192-208 | the method's messages are `GitErrors` |
| Validator.TemplateErrorsCount | src/ai_code_review/config/validator.py:222-224 | one message per template name that the written `re.match` check rejects |
| Validator.SingleTemplateAsList | src/ai_code_review/config/validator.py:221 | a single template name is checked as the one-element list holding it |
| Validator.RuleTemplateErrorsCount | src/ai_code_review/config/validator.py:210-226 | one message per empty rule pattern plus one per template name that the written check rejects |
| Validator.AppendTemplateErrors | src/ai_code_review/config/validator.py:222-224 | the inner loop appends exactly `TemplateErrors`, the messages of the written name check |
| Validator.AppendEntry | src/ai_code_review/config/validator.py:217-224 | one loop body appends exactly `EntryErrors` of that entry |
| Validator.AppendEntryErrors | src/ai_code_review/config/validator.py:216-224 | the outer loop appends the entries' messages in mapping order |
| Validator.ValidateReviewConfig | src/ai_code_review/config/validator.py:210-226 | the method's messages are `ReviewErrors`, with the written template-name check |
| Validator.UiErrors | src/ai_code_review/config/validator.py:228-242 | at most one message |
| Validator.UiErrorsSpec | src/ai_code_review/config/validator.py:233-240 | the UI section fails exactly when a threshold is set above the display limit (default 20); a threshold of 21 with no limit fails |
| Validator.LoggingErrors | src/ai_code_review/config/validator.py:244-253 | no message exactly when the size text (default `10MB`) passes the size check |
| Validator.LoggingDefault | src/ai_code_review/config/validator.py:249 | without `max_file_size` the logging section is accepted |
| Validator.CpuCount | src/ai_code_review/config/validator.py:262 | `os.cpu_count() or 1` is at least 1 |
| Validator.PerformanceErrors | src/ai_code_review/config/validator.py:255-270 | a message exactly when `max_workers` (default 4) exceeds twice the processor count |
| Validator.PerformanceDefault | src/ai_code_review/config/validator.py:260-264 | the default of 4 workers is accepted on a machine with at least two processors |
| Validator.ValidationSpec | src/ai_code_review/config/validator.py:37-67 | valid exactly when there is no message; a schema failure gives exactly the one `Schema validation error: ` message; otherwise valid exactly when all six section checks give none |
| Validator.Validate | src/ai_code_review/config/validator.py:37-67 | the method's verdict and messages are `Validation`, with the written region and template-name checks |
| ChangeAnalyzer.DefaultSettings | src/ai_code_review/git/analyzer.py:39-46 | an empty `git` section means no patterns, no binary extensions, a diff limit of 10000 lines and a cap of 50 files |
| ChangeAnalyzer.BucketPrecedence | src/ai_code_review/git/analyzer.py:68-92 | the exclude test fires first, then the include test (only when include patterns exist), then the binary test, then the size test; a diff exactly at the limit is not too large |
| ChangeAnalyzer.MatchesAnyPattern | src/ai_code_review/git/analyzer.py:133-138 | the pattern loop returns true exactly when some pattern matches the name |
| ChangeAnalyzer.ShouldIncludeFile | src/ai_code_review/git/analyzer.py:140-148 | a file is included exactly when there are no include patterns or one of them matches |
| ChangeAnalyzer.Route | src/ai_code_review/git/analyzer.py:69-92 | the loop body's four tests put the file in `BucketOf`'s bucket |
| ChangeAnalyzer.Place | src/ai_code_review/git/analyzer.py:71-97 | the file's name joins the list of its bucket; a passing file's entry joins the filtered changes and its counts the totals |
| ChangeAnalyzer.FilterChanges | src/ai_code_review/git/analyzer.py:60-97 | the filtering loop yields `TriageOf` the input |
| ChangeAnalyzer.AnalyzeChanges | src/ai_code_review/git/analyzer.py:48-131 | the method's result is `Analyze`: the filtering loop, then the cap by size |
| ChangeAnalyzer.PassedIsSubsequence | src/ai_code_review/git/analyzer.py:94-95 | every filtered entry is an entry of the input |
| ChangeAnalyzer.PassedKeysFromInput | src/ai_code_review/git/analyzer.py:94-95 | every filtered name is a name of the input |
| ChangeAnalyzer.BucketsPartition | src/ai_code_review/git/analyzer.py:68-97 | each name occurs in the input as often as in the filtered, excluded, binary and large lists together |
| ChangeAnalyzer.AnalyzePartitions | src/ai_code_review/git/analyzer.py:48-131 | every input filename ends up in exactly one of the four result lists, the cap included |
| ChangeAnalyzer.AnalyzeKeepsLists | src/ai_code_review/git/analyzer.py:99-125 | the cap leaves the binary and large lists alone |
| ChangeAnalyzer.CapMovesToExcluded | src/ai_code_review/git/analyzer.py:110-115 | the cap moves names from the filtered files to the excluded ones and loses none |
| ChangeAnalyzer.CapSplits | src/ai_code_review/git/analyzer.py:104-112 | cutting the size-sorted list splits the filtered names between kept and dropped |
| ChangeAnalyzer.SortKeepsNames | src/ai_code_review/git/analyzer.py:104-108 | sorting by size keeps the multiset of names |
| ChangeAnalyzer.CapKeepsLargest | src/ai_code_review/git/analyzer.py:99-115 | when more than `max_files` files pass, exactly `max_files` stay and none is smaller than a dropped file |
| ChangeAnalyzer.CapIsStable | src/ai_code_review/git/analyzer.py:104-112 | among files of equal size, the kept ones followed by the dropped ones are those files in their original order |
| ChangeAnalyzer.SliceIndex | src/ai_code_review/git/analyzer.py:110-112 | Python's slice bound lies within the list and equals `n` when `0 <= n <= len` |
| ChangeAnalyzer.NamesWithStatusMembers | src/ai_code_review/git/analyzer.py:173-183 | a name is in the list of a status exactly when an entry with that name has that status |
| ChangeAnalyzer.CategorizeChanges | src/ai_code_review/git/analyzer.py:155-185 | each of the five lists holds the names of its status in map order; other statuses are dropped |
| ChangeAnalyzer.FileType | src/ai_code_review/git/analyzer.py:199-202 | the type key is never empty (`no_extension` stands in for a missing suffix) |
| ChangeAnalyzer.NamesOfType | src/ai_code_review/git/analyzer.py:204-206 | the names of a type are all of that type |
| ChangeAnalyzer.TypesOfGroups | src/ai_code_review/git/analyzer.py:197-208 | the built dict maps every type that occurs to its files in map order and holds no other key |
| ChangeAnalyzer.AddFile | src/ai_code_review/git/analyzer.py:204-206 | the loop body creates the group if needed and appends the name |
| ChangeAnalyzer.GroupByKind | src/ai_code_review/git/analyzer.py:197-208 | the loop builds `TypesOf`, and so maps every type to its files |
| ChangeAnalyzer.GetFileTypes | src/ai_code_review/git/analyzer.py:187-208 | every type that occurs maps to its files, in map order; no other key exists |
| ChangeAnalyzer.Tally | src/ai_code_review/git/analyzer.py:232-250 | one file adds its counts to the totals, one to its status's count, and moves the largest and smallest change |
| ChangeAnalyzer.GetChangeStatistics | src/ai_code_review/git/analyzer.py:210-256 | the loop's statistics are `StatisticsOf` the input |
| ChangeAnalyzer.StatisticsStep | src/ai_code_review/git/analyzer.py:232-250 | how every statistic changes with one more entry |
| ChangeAnalyzer.StatisticsBounds | src/ai_code_review/git/analyzer.py:245-254 | every file's size lies between the smallest and largest change, both are sizes of actual files, and both are 0 for no files |
| ChangeAnalyzer.StatusCountsBounded | src/ai_code_review/git/analyzer.py:224-243 | the per-status counts never exceed the file count (copied files are not counted) |
| ChangeAnalyzer.HeaderCount | src/ai_code_review/git/analyzer.py:284-289 | the header is the longest prefix of `diff --git`, `index `, `---` and `+++` lines |
| ChangeAnalyzer.HeaderLines | src/ai_code_review/git/analyzer.py:284-289 | the header loop returns exactly those leading lines |
| ChangeAnalyzer.GroupsPartition | src/ai_code_review/git/analyzer.py:294-306 | the runs concatenate back to the content, none is empty or longer than `chunk_size`, all but the last are full |
| ChangeAnalyzer.EffectiveChunkSize | src/ai_code_review/git/analyzer.py:297 | a chunk size of 0 or less flushes after every line |
| ChangeAnalyzer.ChunkContent | src/ai_code_review/git/analyzer.py:294-306 | the content loop yields the header joined with each run |
| ChangeAnalyzer.ChunkDiff | src/ai_code_review/git/analyzer.py:271-309 | the loop body for one file yields `Chunks` |
| ChangeAnalyzer.ChunksSpec | src/ai_code_review/git/analyzer.py:271-309 | a diff of at most `chunk_size` lines is kept whole; otherwise each chunk is the header plus a non-empty run of at most `chunk_size` lines, and the runs together are the lines after the header |
| ChangeAnalyzer.ChunkLargeDiffs | src/ai_code_review/git/analyzer.py:258-311 | one chunk list per file, in map order |
| ChangeAnalyzer.Priority | src/ai_code_review/git/analyzer.py:323-355 | the score is at least a tenth of the changed lines |
| ChangeAnalyzer.PrioritizeSpec | src/ai_code_review/git/analyzer.py:313-368 | the review order is a permutation of the filenames with non-increasing scores |
| ChangeAnalyzer.KeyInNameIsSecuritySensitive | src/ai_code_review/git/analyzer.py:346-348 | a file whose lower-cased name contains `key` gets the security bonus |
| Sorting.SortPermutes | src/ai_code_review/git/analyzer.py:104-108 | `sorted` returns a permutation of its input |
| Sorting.SortSorted | src/ai_code_review/git/analyzer.py:104-108 | `sorted` returns its input in non-decreasing key order |
| Sorting.SortStable | src/ai_code_review/git/analyzer.py:104-108 | `sorted` is stable: elements of equal key keep their order |
| Sorting.SortByDescendingSpec | src/ai_code_review/git/analyzer.py:363 | `sorted(..., reverse=True)` is a permutation in non-increasing key order |
| Sorting.SortByDescendingStable | src/ai_code_review/git/analyzer.py:363 | `reverse=True` keeps elements of equal key in their input order |
| Glob.StarMatchesAll | src/ai_code_review/git/analyzer.py:136 | `fnmatch(name, "*")` holds for every name |
| Glob.LiteralMatchIsEquality | src/ai_code_review/git/analyzer.py:136 | a pattern without wildcards matches exactly the equal name |
| Glob.StarLiteralStarMatchesContaining | src/ai_code_review/git/analyzer.py:346-347 | `*lit*` matches every name containing `lit` |
| Glob.LiteralThenStar | src/ai_code_review/git/analyzer.py:351-352 | `lit*` matches every name starting with `lit` |
| Glob.BaseNameIsTail | src/ai_code_review/git/analyzer.py:152 | `PurePath(p).name` is the tail of the path after the last `/` |
| Glob.SuffixIsTail | src/ai_code_review/git/analyzer.py:152 | `PurePath(p).suffix` is a tail of the name: a dot followed by at least one character, no further dot and no slash, or empty |
| GitOperations.BranchName | src/ai_code_review/git/operations.py:26-31 | a remote ref starting with `refs/heads/` loses exactly that prefix; any other ref is returned unchanged |
| GitOperations.RefOfLine | src/ai_code_review/git/operations.py:120-141 | a line yields a ref exactly when it is non-empty, splits into four whitespace fields and its local sha is not forty zeros; the ref holds the four fields in order |
| GitOperations.KeptRefsMembers | src/ai_code_review/git/operations.py:118-143 | a ref is returned exactly when some input line yields it |
| GitOperations.KeptRefsAreNotDeletions | src/ai_code_review/git/operations.py:131-134 | no returned ref has the all-zero local sha |
| GitOperations.ParsePushRefs | src/ai_code_review/git/operations.py:108-143 | the loop returns the refs of the kept lines of the stripped input, in line order |
| GitOperations.AddedPlusRemovedBounded | src/ai_code_review/git/operations.py:335-339 | added and removed lines are disjoint, so together they never exceed the line count |
| GitOperations.CountDiffLines | src/ai_code_review/git/operations.py:322-341 | the counts are the lines starting with `+` but not `+++`, and with `-` but not `---`; their sum is at most the line count |
| GitOperations.NamesOf | src/ai_code_review/git/operations.py:283-289 | an `R…` line with at least three fields names the third field, with the second as the old name; any other line names the second field and no old name |
| GitOperations.LineOutcomeOf | src/ai_code_review/git/operations.py:274-307 | a stored change's status is the first character of the status field |
| GitOperations.CollectSpec | src/ai_code_review/git/operations.py:272-307 | when no line raises, the collected map holds for each filename the change of the last line naming it; files whose diff failed and skipped lines are absent |
| GitOperations.CollectFromEmpty | src/ai_code_review/git/operations.py:272-310 | the same statement for the whole listing, starting from an empty dict |
| GitOperations.CollectKeysAreFilenames | src/ai_code_review/git/operations.py:296-303 | every change is stored under its own filename |
| GitOperations.ParseNameStatus | src/ai_code_review/git/operations.py:272-310 | the name-status loop yields `Collect` of the listing's lines, an empty status field raising out of the loop |
| Config.SetError | src/ai_code_review/config/manager.py:103-109 | at a non-mapping, `config[k] = value` on the last key raises `'<type>' object does not support item assignment` (a list: `list indices must be integers or slices, not str`); before it, `k in config` raises `argument of type '<type>' is not iterable`, a list raises the list-indices error and a string raises `string indices must be integers, not 'str'` when it contains the key and the item-assignment error otherwise |
| Config.SetPathError | src/ai_code_review/config/manager.py:99-109 | `set` fails only with a `TypeError`, raised at the shortest proper prefix of the key path that leads to a value other than a mapping, with `SetError`'s message for that value and the next key |
| Config.SetPathStep | src/ai_code_review/config/manager.py:103-109 | one level of `set`: the mapping gets the updated child under the first key |
| Config.LookupStep | src/ai_code_review/config/manager.py:85-86 | one level of `get`'s walk |
| Config.SetThenLookup | src/ai_code_review/config/manager.py:81-109 | after a successful `set(key, v)`, `get(key)` returns `v` |
| Config.SetKeepsOtherPaths | src/ai_code_review/config/manager.py:99-109 | a key path that leaves the set path somewhere reads the same before and after `set` |
| Config.SetFailsIff | src/ai_code_review/config/manager.py:99-109 | `set` fails exactly when some proper prefix of the key path leads to a value that is not a mapping |
| Config.NothingBelowMissing | src/ai_code_review/config/manager.py:81-89 | below a missing key every longer path is missing too |
| Config.SetNeverFailsOnFresh | src/ai_code_review/config/manager.py:103-106 | `set` through freshly created `{}` mappings never fails |
| Config.MergeFromGet | src/ai_code_review/config/manager.py:284-290 | after the deep merge, a key the update lacks keeps its base value and a key it holds gets the merge of both values |
| Config.MergeGet | src/ai_code_review/config/manager.py:284-290 | the same for the whole update |
| Config.MergeFromUnique | src/ai_code_review/config/manager.py:284-290 | merging never duplicates a key of the base |
| Config.MergedScalar | src/ai_code_review/config/manager.py:287-290 | an update value that is not a mapping replaces whatever the base held |
| Config.MergeFromStep | src/ai_code_review/config/manager.py:286-290 | one round of `_deep_merge`'s loop |
| Config.DeepMergeInto | src/ai_code_review/config/manager.py:284-290 | the recursive in-place merge yields `DeepMerge` |
| Config.MergeConfig | src/ai_code_review/config/manager.py:277-282 | a falsy update changes nothing; a truthy update that is not a mapping raises `'<type>' object has no attribute 'items'`, and nothing else raises |
| Config.TemplatesOf | src/ai_code_review/config/manager.py:127-130 | a string value contributes itself; a value that is neither string nor list contributes nothing |
| Config.StringItems | src/ai_code_review/config/manager.py:129-130 | a list contributes exactly its string items |
| Config.ApplicableMembers | src/ai_code_review/config/manager.py:125-130 | a template is collected exactly when some matching pattern lists it |
| Config.Dedup | src/ai_code_review/config/manager.py:132-138 | the de-duplicated list holds the same names and none twice |
| Config.FirstIndex | src/ai_code_review/config/manager.py:136 | the position of a name's first occurrence |
| Config.DedupOrder | src/ai_code_review/config/manager.py:132-138 | de-duplication keeps names in the order of their first occurrence |
| Config.RuleTemplatesSound | src/ai_code_review/config/manager.py:111-140 | a name is returned exactly when a pattern matching the file lists it, and no name twice |
| Config.CollectTemplates | src/ai_code_review/config/manager.py:124-130 | the first loop collects the templates of each matching pattern in mapping order |
| Config.Unique | src/ai_code_review/config/manager.py:132-138 | the second loop keeps each name at its first occurrence |
| Config.EnvKeyRoundTrip | src/ai_code_review/config/manager.py:294-301 | a dotted key without `_` and upper-case letters is set by exactly its `AI_CODE_REVIEW_` variable |
| Config.EnvKeyHasNoUnderscore | src/ai_code_review/config/manager.py:301 | no environment variable reaches a key containing `_`, such as `bedrock.max_tokens` |
| Config.ParseEnvValue | src/ai_code_review/config/manager.py:310-332 | boolean words (any case) first, then `float` for text with `.` and `int` for text without, then the stripped comma items, else the text itself |
| Config.StrippedItems | src/ai_code_review/config/manager.py:329 | one stripped string per comma-separated part |
| Config.EnvIntRoundTrip | src/ai_code_review/config/manager.py:313-323 | the text of an integer reads back as that integer, except `1` and `0`, which read as booleans |
| Config.ParseEnvNumber | src/ai_code_review/config/manager.py:318-323 | a text that is no boolean word and has no `.` reads as what `int()` makes of it |
| Config.EnvListRoundTrip | src/ai_code_review/config/manager.py:327-329 | items joined with commas read back as those items when they hold no `,` or `.` and no surrounding white space |
| Config.ParseEnvList | src/ai_code_review/config/manager.py:327-329 | a text with `,` that is no boolean word and no integer reads as its stripped items |
| Config.CommaText | src/ai_code_review/config/manager.py:313-323 | a text with a `,` is no boolean word and no integer |
| Config.EnvKeepsOtherTopKeys | src/ai_code_review/config/manager.py:292-307 | overrides of other top-level keys leave a top-level key alone |
| Config.ProjectFileWins | src/ai_code_review/config/manager.py:45-62 | later sources win: a non-mapping value the project file sets survives unless an environment variable overrides it |
| Config.LoadedConfig | src/ai_code_review/config/manager.py:45-62 | validation never changes the configuration |
| Config.ConfigManager.Get | src/ai_code_review/config/manager.py:67-89 | `get` returns the value the dotted key leads to, or `default` |
| Config.ConfigManager.MergeConfigInto | src/ai_code_review/config/manager.py:277-282 | the configuration becomes `MergeConfig`'s result, or stays unchanged when `.items()` raises on a non-mapping update, whose `AttributeError` is returned |
| Config.RuleTemplates | src/ai_code_review/config/manager.py:111-140 | the templates are found exactly when `review.rule_templates` is a mapping; otherwise `.items()` raises `'<type>' object has no attribute 'items'` for its type |
| Config.ConfigManager.GetRuleTemplates | src/ai_code_review/config/manager.py:111-140 | the method returns `RuleTemplates` |
| Config.ConfigManager.ApplyEnvOverrides | src/ai_code_review/config/manager.py:292-308 | the configuration becomes `EnvOverrides`' result and the first failure is returned |
| Config.ConfigManager.Reload | src/ai_code_review/config/manager.py:45-65 | the configuration becomes `Load`'s result; it fails exactly when a step raised |
| Config.ConfigManager.Set | src/ai_code_review/config/manager.py:91-109 | the configuration becomes `SetPath`'s result, or stays unchanged and `SetPath`'s `TypeError` is returned when a non-mapping is on the way |
| Config.Create | src/ai_code_review/config/manager.py:30-43 | a manager exists exactly when its first `reload` succeeds, holding the loaded configuration |
| Config.Descend | src/ai_code_review/config/manager.py:103-106 | the descent either finds the chain of mappings to the parent or meets a non-mapping, in which case `set` fails with the error the descent returns |
| Config.Rebuild | src/ai_code_review/config/manager.py:109 | assigning at the end of the chain and rebuilding the parents is `SetPath` |
| Config.BlockedPath | src/ai_code_review/config/manager.py:103-106 | a chain that meets a non-mapping makes `set` fail with `SetError` for that value and the next key |
| Rules.FirstRead | src/ai_code_review/review/rules.py:91-101 | the search finds content exactly when some location could be read, and the content is that location's |
| Rules.FirstReadIsFirst | src/ai_code_review/review/rules.py:92-98 | the first readable location decides, even when it holds an empty document |
| Rules.Fresh | src/ai_code_review/review/rules.py:103-108 | a template found nowhere (or empty) gives `{}`; loading raises exactly when the found data is not a mapping, with `'<type>' object has no attribute 'get'` |
| Rules.LoadTemplate | src/ai_code_review/review/rules.py:70-113 | a cached name is answered from the cache unchanged; a name found nowhere gives `{}` and is not cached; a found template's `rules` are cached and nothing else changes |
| Rules.LoadTemplateCoherent | src/ai_code_review/review/rules.py:80-113 | while the store does not change, a load through a coherent cache gives the fresh result and keeps the cache coherent |
| Rules.LoadAllFresh | src/ai_code_review/review/rules.py:49-51 | loading a list through a coherent cache gives each name's fresh result |
| Rules.TemplateRules | src/ai_code_review/review/rules.py:49-57 | every mapping merged comes from a load that gave it |
| Rules.TemplateRulesAppend | src/ai_code_review/review/rules.py:49-57 | templates before and after contribute independently |
| Rules.TemplateRulesSkip | src/ai_code_review/review/rules.py:50-57 | a template that raised, or gave no mapping, leaves the merge as if it were not listed |
| Rules.MergedRulesStep | src/ai_code_review/review/rules.py:52-54 | each loaded mapping updates the merge |
| Rules.LaterTemplateWins | src/ai_code_review/review/rules.py:49-54 | a rule name holds `v` in the merge exactly when the last template defining it gives `v` |
| Rules.Elements | src/ai_code_review/review/rules.py:135 | iterating gives a string's characters, a list's items and a dict's keys; a number, a boolean or null cannot be iterated |
| Rules.UpdatePair | src/ai_code_review/review/rules.py:135 | an element of a sequence update is accepted exactly when it iterates to two items whose first is not a list or dict; its first item is then the key and its second the value |
| Rules.UpdatePairs | src/ai_code_review/review/rules.py:135 | a sequence update succeeds exactly when every element is a pair, and otherwise fails with the error of the first element that is not |
| Rules.UpdatePairsOfLists | src/ai_code_review/review/rules.py:135 | a list of `[key, value]` lists with string keys updates with exactly those pairs, in order |
| Rules.OverrideDict | src/ai_code_review/review/rules.py:135 | a mapping updates with its entries; a number, a boolean or null fails with `TypeError: '<type>' object is not iterable` |
| Rules.CharElements | src/ai_code_review/review/rules.py:135 | a one-character string iterates to the one-element sequence holding itself |
| Rules.CharElementFails | src/ai_code_review/review/rules.py:135 | a one-character string element fails with `ValueError: dictionary update sequence element #0 has length 1; 2 is required` |
| Rules.OverrideDictString | src/ai_code_review/review/rules.py:135 | a string override is accepted only when empty; any other string fails because its element #0 has length 1 |
| Rules.OverrideDicts | src/ai_code_review/review/rules.py:132-135 | at most one update per override entry |
| Rules.OverrideDictsAppend | src/ai_code_review/review/rules.py:132-135 | override entries before and after apply independently |
| Rules.UnmatchedOverridesIgnored | src/ai_code_review/review/rules.py:132-135 | override patterns that do not match the file have no effect, not even an error |
| Rules.RuleConfigError | src/ai_code_review/review/rules.py:127-130 | a rule configuration that is not a mapping raises `AttributeError` at `.copy()`, or at `.get` for a list, which has `copy` |
| Rules.OverrideEntries | src/ai_code_review/review/rules.py:130-132 | a missing `file_overrides` gives no entries, a mapping gives its entries, anything else raises `'<type>' object has no attribute 'items'` |
| Rules.FileOverrides | src/ai_code_review/review/rules.py:115-137 | a successful result is a mapping; it fails exactly when the configuration or its `file_overrides` is not a mapping, or a matching override is not a valid `dict.update` argument, and then with `RuleConfigError`, `OverrideEntries`' error or the first failing override's error, in that order |
| Rules.LastMatchingOverrideWins | src/ai_code_review/review/rules.py:126-137 | a key gets the value of the last matching override holding it, else keeps the base value |
| Rules.NoMatchingOverride | src/ai_code_review/review/rules.py:126-137 | with no matching override the result equals the base configuration |
| Rules.ApplyOverrides | src/ai_code_review/review/rules.py:132-135 | the overrides loop applies the matching updates in declaration order or raises the first failure |
| Rules.ApplyFileOverrides | src/ai_code_review/review/rules.py:115-137 | the method returns `FileOverrides` for the file's pattern test |
| Rules.FilterEnabledOk | src/ai_code_review/review/rules.py:60-65 | filtering fails exactly when the overrides of some enabled rule fail |
| Rules.FilterEnabledGet | src/ai_code_review/review/rules.py:60-65 | exactly the enabled rules of the merge are kept, each with its overridden configuration |
| Rules.FilterEnabledFails | src/ai_code_review/review/rules.py:60-65 | the first failing enabled rule's error is the one raised |
| Rules.LastIndex | src/ai_code_review/review/rules.py:61 | the last entry under a key |
| Rules.FilterEnabledRules | src/ai_code_review/review/rules.py:59-68 | the filtering loop returns `FilterEnabled` |
| Rules.RulePrompt | src/ai_code_review/review/rules.py:139-150 | the rule's `prompt`, or `Review for <rule> issues` |
| Rules.RuleSeverity | src/ai_code_review/review/rules.py:152-163 | the rule's `severity`, or `warning` |
| Rules.RuleEnabled | src/ai_code_review/review/rules.py:165-176 | the rule's `enabled`, or true |
| Rules.ContextPrompt | src/ai_code_review/review/rules.py:178-190 | no `context_prompts` gives none; a non-mapping there raises `'<type>' object has no attribute 'get'`; otherwise the prompt stored for the context |
| Rules.AllErrorsEmpty | src/ai_code_review/review/rules.py:216-237 | no error at all exactly when no item has one |
| Rules.RuleErrorsEmpty | src/ai_code_review/review/rules.py:216-227 | a rule is reported without error exactly when it is a mapping with a prompt and a valid or absent severity |
| Rules.RulesFieldValid | src/ai_code_review/review/rules.py:208-227 | the `rules` field is reported without error exactly when it is a mapping of well-formed rules |
| Rules.PatternsFieldValid | src/ai_code_review/review/rules.py:229-237 | `file_patterns` is reported without error exactly when it is absent or a list of strings |
| Rules.TemplateValidIff | src/ai_code_review/review/rules.py:192-240 | a template is reported valid exactly when it has a name, well-formed rules and well-formed patterns |
| Rules.CheckRules | src/ai_code_review/review/rules.py:216-227 | the per-rule loop reports each rule's errors in order |
| Rules.CheckPatterns | src/ai_code_review/review/rules.py:235-237 | the pattern loop reports each non-string pattern in order |
| Rules.ValidateRuleTemplate | src/ai_code_review/review/rules.py:192-240 | valid exactly when no error was found, and exactly when the template is well formed |
| Rules.RuleProcessor.constructor | src/ai_code_review/review/rules.py:19-31 | the processor starts with the enabled rules and an empty cache |
| Rules.RuleProcessor.LoadRuleTemplate | src/ai_code_review/review/rules.py:70-113 | the result and the new cache are `LoadTemplate`'s |
| Rules.RuleProcessor.LoadTemplates | src/ai_code_review/review/rules.py:46-57 | the loading loop merges the loaded mappings and leaves `LoadAll`'s cache |
| Rules.RuleProcessor.LoadRulesForFile | src/ai_code_review/review/rules.py:33-68 | the enabled rules of the merged templates, with file overrides applied; the first override failure, with `FileOverrides`' error, is raised |
| Rules.RuleProcessor.CreateRuleTemplate | src/ai_code_review/review/rules.py:242-278 | an invalid template raises and leaves the cache; a written one is dropped from the cache |
| Rules.RuleProcessor.ClearTemplateCache | src/ai_code_review/review/rules.py:344-346 | the cache is empty |
| ReviewModels.CountSeverity | src/ai_code_review/review/models.py:21-33 | a severity count never exceeds the number of issues |
| ReviewModels.CountsSum | src/ai_code_review/review/models.py:10-33 | when every issue has one of the four severities the four counts add up to the number of issues |
| ReviewModels.CountPrefix | src/ai_code_review/review/models.py:21-33 | counting over a prefix never gives more |
| ReviewModels.ConsistentTotals | src/ai_code_review/review/models.py:21-33 | in a consistent file result the total is the sum of the four severity counters |
| Engine.Level | src/ai_code_review/review/engine.py:332 | the four severities rank 1 to 4, and only they have a rank |
| Engine.ThresholdSpec | src/ai_code_review/review/engine.py:330-335 | an issue is kept exactly when its level reaches the threshold's; an unknown threshold counts as `warning`; errors are always kept and a `suggestion` threshold keeps all |
| Engine.Coerce | src/ai_code_review/review/engine.py:284-286 | a known severity is kept, any other becomes `info` |
| Engine.CoerceIdempotent | src/ai_code_review/review/engine.py:284-286 | coercion is idempotent |
| Engine.ChangeTypeDescriptionInjective | src/ai_code_review/review/engine.py:240-249 | distinct statuses get distinct descriptions, and only A, M, D, R and C are known |
| Engine.PlaceholderResultsConsistent | src/ai_code_review/review/engine.py:352-388 | the empty file result is consistent; the error result holds one `system` error with no line, counts it as one error, and has no tokens or cost |
| Engine.ResultOf | src/ai_code_review/review/engine.py:301-318 | the counters are consistent with the issues: each severity count is the number of issues with it and `total_issues` is the list length |
| Engine.ExtractJson | src/ai_code_review/review/engine.py:255-262 | a block is found exactly when the stripped answer holds both `{` and `}` |
| Engine.ExtractJsonSpec | src/ai_code_review/review/engine.py:255-264 | a non-empty block runs from the first `{` to the last `}`; it is empty only when the last `}` precedes the first `{` |
| Engine.IssueOf | src/ai_code_review/review/engine.py:273-287 | an entry yields an issue exactly when it is a mapping, with rule `unknown` and severity `info` by default, the severity coerced, and the file's path |
| Engine.KeptOne | src/ai_code_review/review/engine.py:284-290 | an entry contributes at most one issue, and only one meeting the threshold |
| Engine.KeptIssuesSpec | src/ai_code_review/review/engine.py:272-294 | every kept issue has a valid severity meeting the threshold and belongs to the file |
| Engine.Truncate | src/ai_code_review/review/engine.py:296-299 | the result is a prefix: the first `max_issues_per_file` issues when there are more, with Python's meaning of a negative limit |
| Engine.IssuesField | src/ai_code_review/review/engine.py:268-273 | `issues` is found exactly when the answer is a mapping holding it; a mapping never fails the lookup |
| Engine.ReadAnswer | src/ai_code_review/review/engine.py:253-273 | an answer is usable exactly when a block is found, it decodes, holds `issues` and that value can be iterated |
| Engine.AnswerIssuesSpec | src/ai_code_review/review/engine.py:272-299 | the reported issues are the first kept ones, each meeting the threshold, at most `max_issues_per_file` |
| Engine.ParsedResponseUsable | src/ai_code_review/review/engine.py:251-318 | a usable answer gives a consistent result of the first kept issues, with input plus output tokens and the answer's cost |
| Engine.ParsedResponseUnusable | src/ai_code_review/review/engine.py:320-328 | an unusable answer gives the file's error result, not an exception |
| Engine.KeepIssues | src/ai_code_review/review/engine.py:272-294 | the parsing loop keeps `KeptIssues` |
| Engine.ParseReviewResponse | src/ai_code_review/review/engine.py:251-328 | the method returns `ParsedResponse` |
| Engine.CriteriaFails | src/ai_code_review/review/engine.py:196-197 | the rule loop fails exactly when some rule configuration is not a mapping, with the `AttributeError` of the first such |
| Engine.CriteriaSpec | src/ai_code_review/review/engine.py:195-199 | each enabled rule contributes its upper-cased heading followed by its `prompt` value as found |
| Engine.CriteriaItemsStr | src/ai_code_review/review/engine.py:195-199 | every item of the rule loop that is not a string is the `prompt` value of an enabled rule |
| Engine.CriteriaErrPrefix | src/ai_code_review/review/engine.py:195-199 | a failure among the first rules is the failure of the whole loop |
| Engine.CriteriaStep | src/ai_code_review/review/engine.py:195-199 | one more rule appends its items, or fails when its configuration is not a mapping |
| Engine.CriteriaNoneEnabled | src/ai_code_review/review/engine.py:195-199 | a rule set of mappings with no enabled rule adds no criteria |
| Engine.AppendRule | src/ai_code_review/review/engine.py:196-199 | one pass appends the rule's heading and `prompt` value when enabled, and fails when the configuration is not a mapping |
| Engine.AppendCriteria | src/ai_code_review/review/engine.py:195-199 | the rule loop appends the items of `Criteria`, or raises its failure |
| Engine.JoinLines | src/ai_code_review/review/engine.py:228 | the join succeeds exactly when every item is a string, giving the lines joined by newlines; otherwise a `TypeError` names the position and type of the first item that is not a string |
| Engine.CriteriaOnMappings | src/ai_code_review/review/engine.py:195-199 | a rule set of mappings never fails the rule loop |
| Engine.NonStrItemFromPrompt | src/ai_code_review/review/engine.py:195-199 | an item of the rule loop that is not a string comes from an enabled rule whose `prompt` is not a string |
| Engine.NonStrPromptToItem | src/ai_code_review/review/engine.py:195-199 | an enabled rule whose `prompt` is not a string puts an item that is not a string into the loop's result |
| Engine.JoinAroundStrs | src/ai_code_review/review/engine.py:177-228 | joining the fixed lines around the rule items fails exactly when a rule item is not a string, and then with a `TypeError` |
| Engine.PromptFailsOnNonString | src/ai_code_review/review/engine.py:177-228 | with every rule a mapping, the prompt fails exactly when an enabled rule's `prompt` is not a string, and then with a `TypeError` |
| Engine.BuildReviewPrompt | src/ai_code_review/review/engine.py:177-228 | the method gives `ReviewPrompt`: the lines joined by newlines, or the failure of the rule loop or of the join |
| Engine.NoRulesNoCall | src/ai_code_review/review/engine.py:150-160 | with no template or no rule for the file the model is not asked and the result is the empty file result |
| Engine.AskModel | src/ai_code_review/review/engine.py:162-175 | a failure to build the prompt is raised before the model is asked; otherwise the model is asked with the prompt and its answer parsed |
| Engine.ReviewSingleFile | src/ai_code_review/review/engine.py:137-175 | the method returns `SingleFileReview` |
| Engine.ReviewedAt | src/ai_code_review/review/engine.py:113-119 | the `i`-th entry is the `i`-th file with its own result, or its error result when its review raised |
| Engine.ReviewedKeys | src/ai_code_review/review/engine.py:113-121 | the result keys are the filenames in input order |
| Engine.FileResultsKeys | src/ai_code_review/review/engine.py:107-121 | the result map has exactly the input files as keys, each with its own isolated result |
| Engine.FileResultIsolated | src/ai_code_review/review/engine.py:113-119 | a file's result depends only on its own review: a failure is isolated to that file |
| Engine.ReviewFiles | src/ai_code_review/review/engine.py:107-135 | the sequential and per-batch loop yields `FileResultsFrom` |
| Engine.BatchesSpec | src/ai_code_review/review/engine.py:87-89 | batches are non-empty, full except possibly the last, and together are the files in order |
| Engine.BatchesFirst | src/ai_code_review/review/engine.py:88-89 | the first batch holds the first `batch_size` files, or all of them |
| Engine.BatchedIsSequential | src/ai_code_review/review/engine.py:77-105 | reviewing in batches gives the same results, in the same order, as reviewing file by file |
| Engine.ReviewFilesInBatches | src/ai_code_review/review/engine.py:77-105 | the batch loop yields `BatchedResults` |
| Engine.AggregateTotals | src/ai_code_review/review/engine.py:390-399 | over consistent file results the issue total is the number of issues and the sum of the four severity totals |
| Engine.AggregateSummary | src/ai_code_review/review/engine.py:401-407 | the summary says no issues exactly when the issue total is zero |
| Engine.RunFilesSpec | src/ai_code_review/review/engine.py:62-69 | with a positive batch size both paths give one result per changed file, under its own name and in input order |
| Engine.RunFilesBadBatchSize | src/ai_code_review/review/engine.py:88 | a batch size of 0 makes the batch path raise; a negative one reviews nothing |
| Engine.ReviewChanges | src/ai_code_review/review/engine.py:49-75 | no files gives the empty result; otherwise the file results and then their totals |
| Models.CatalogWellFiled | src/ai_code_review/bedrock/models.py:45-157 | each catalog entry is filed once, under its own model id |
| Models.CatalogKeys | src/ai_code_review/bedrock/models.py:45-157 | the catalog holds the eight models, in insertion order |
| Models.GetModelInfo | src/ai_code_review/bedrock/models.py:159-175 | the registered record for a supported id; `ValueError("Unsupported model: …")` exactly for any other |
| Models.ListModels | src/ai_code_review/bedrock/models.py:177-179 | exactly the supported ids |
| Models.ListModelsByProvider | src/ai_code_review/bedrock/models.py:181-194 | exactly the ids whose provider matches |
| Models.RecommendedAreSupported | src/ai_code_review/bedrock/models.py:196-240 | every recommended id, for every use case, is in the catalog |
| Models.CostEstimate | src/ai_code_review/bedrock/models.py:246-266 | 0 for an unsupported id |
| Models.CostAdditive | src/ai_code_review/bedrock/models.py:263-266 | for a fixed model the estimate is additive in the token counts |
| Models.CostMonotone | src/ai_code_review/bedrock/models.py:263-266 | with non-negative prices the estimate grows with the token counts |
| Models.ComparisonsGet | src/ai_code_review/bedrock/models.py:268-296 | an id has a row exactly when it was asked for and is supported; the row copies its record and estimates a 2000-in, 500-out review |
| Models.CompareModels | src/ai_code_review/bedrock/models.py:278-296 | the loop builds `Comparisons` |
| Models.Matching | src/ai_code_review/bedrock/models.py:317-334 | exactly the ids meeting every filter; a bound of 0 or none and an empty provider filter nothing |
| Models.ModelsByCriteriaSpec | src/ai_code_review/bedrock/models.py:298-339 | exactly the supported models meeting the criteria, each once, by ascending output price |
| Models.ModelsByCriteriaStable | src/ai_code_review/bedrock/models.py:337 | models of equal output price keep their catalog order |
| Models.GetModelByCriteria | src/ai_code_review/bedrock/models.py:315-339 | the loop and the sort give `ModelsByCriteria` |
| Models.ProviderInfosGet | src/ai_code_review/bedrock/models.py:341-367 | the per-model updates leave each provider with the summary of its own models, and there is no entry for other providers |
| Models.SummaryModels | src/ai_code_review/bedrock/models.py:355 | a provider's `models` are exactly the ids `list_models_by_provider` gives |
| Models.SummaryMinCost | src/ai_code_review/bedrock/models.py:356-359 | `min_cost` is the lowest output price among the provider's models, and infinite only for no model |
| Models.SummaryMaxContext | src/ai_code_review/bedrock/models.py:360-363 | `max_context` is the largest context window among the provider's models, starting from 0 |
| Models.SummarySupportsCode | src/ai_code_review/bedrock/models.py:364-365 | `supports_code` holds exactly when one of the provider's models is recommended for code |
| Models.NoModelsSummary | src/ai_code_review/bedrock/models.py:347-353 | a provider without models keeps the initial entry |
| Models.GetProviderInfo | src/ai_code_review/bedrock/models.py:341-367 | the loop builds `ProviderInfos` |
| Client.SettingsOf | src/ai_code_review/bedrock/client.py:43-51 | an empty `bedrock` section means us-east-1, the Claude 3.5 Sonnet model, 4000 tokens, temperature 0.1, 3 retries and a 1-second delay |
| Client.AnthropicRequestMessages | src/ai_code_review/bedrock/client.py:197-211 | the Anthropic body holds the prompt as its one user message and the configured token limit |
| Client.AnthropicRequestSystem | src/ai_code_review/bedrock/client.py:208-209 | the Anthropic body has a `system` entry exactly when a non-empty system prompt is given, holding it |
| Client.LlamaPrompt | src/ai_code_review/bedrock/client.py:213-217 | without a system prompt the prompt is unchanged; with one, it is wrapped in `<<SYS>>` tags and the prompt sits before ` [/INST]` |
| Client.EmbeddedPrompt | src/ai_code_review/bedrock/client.py:226-243 | without a system prompt the prompt is unchanged; with one, the text is the system prompt, a blank line, then the prompt |
| Client.EmbeddedPromptInjective | src/ai_code_review/bedrock/client.py:228-243 | the user prompt can be recovered from the embedded one |
| Client.RequestBody | src/ai_code_review/bedrock/client.py:182-195 | building raises exactly for an unregistered model or a provider other than the four |
| Client.EstimateCostAgrees | src/ai_code_review/bedrock/client.py:353-360 | for whole token counts the client's estimate is the catalog's `get_cost_estimate` |
| Client.AnthropicRoundTrip | src/ai_code_review/bedrock/client.py:267-288 | an Anthropic body parses back to its text, token counts and stop reason, priced by the catalog |
| Client.Ai21RoundTrip | src/ai_code_review/bedrock/client.py:330-351 | an AI21 body parses back to its text and token counts; the stop reason is always `complete` |
| Client.EmptyBodiesDefault | src/ai_code_review/bedrock/client.py:267-351 | missing fields read as empty content, no tokens, and stop reason `unknown` (Anthropic, Llama) or `complete` (Cohere, AI21) |
| Client.LlamaWordEstimate | src/ai_code_review/bedrock/client.py:290-308 | Llama reports no input tokens; output tokens are `int(1.3 × words)`; the cost uses the unrounded estimate |
| Client.CohereWordEstimate | src/ai_code_review/bedrock/client.py:310-328 | Cohere estimates tokens as Llama does and always stops `complete` |
| Client.TokenEstimate | src/ai_code_review/bedrock/client.py:296-305 | `int(words × 1.3)` is `13 × words / 10` rounded down |
| Client.Classify | src/ai_code_review/bedrock/client.py:158-171 | a `ClientError` becomes a `BedrockError` keeping the code, with the message for throttling, validation, model-not-ready, quota, or the generic `Bedrock API error (code)` |
| Client.ClassifyShowsCode | src/ai_code_review/bedrock/client.py:158-171 | the code is shown at the end of the error's text |
| Client.InvokeOnce | src/ai_code_review/bedrock/client.py:137-180 | one attempt fails only with a `BedrockError` or a `NetworkError`, and with a `NetworkError` exactly when the transport failed |
| Client.UnknownModelRetried | src/ai_code_review/bedrock/client.py:139-184 | an unregistered model fails every attempt with the wrapped `Unexpected error calling Bedrock: Unsupported model` |
| Client.BackoffDoubles | src/ai_code_review/bedrock/client.py:133 | each delay is twice the one before |
| Client.RetrySpec | src/ai_code_review/bedrock/client.py:125-133 | the loop's outcome is attempt `k`'s, where `k` is the number of delays slept: every earlier attempt failed with a `BedrockError`, and attempt `k` succeeded, failed otherwise, or was the last |
| Client.RetryDelays | src/ai_code_review/bedrock/client.py:133 | the `j`-th delay is `retry_delay × 2^j` |
| Client.InvokeBounds | src/ai_code_review/bedrock/client.py:125-135 | at most `retry_attempts + 1` attempts; a first success is returned at once and a network error is never retried |
| Client.RetryLoop | src/ai_code_review/bedrock/client.py:125-135 | the attempt loop gives `Invoke`'s outcome and delays |
| Client.InvokeModel | src/ai_code_review/bedrock/client.py:111-135 | `invoke_model` is the retry loop over `_invoke_model_once` |
| Formatter.StyleFrom | src/ai_code_review/review/formatter.py:18-32 | colour is on, twenty issues are shown and the full listing is printed unless the `ui` section sets them |
| Formatter.ColorizeSpec | src/ai_code_review/review/formatter.py:271-294 | without colour the text is unchanged; with colour it is framed by the colour prefix and the reset sequence, an unknown colour is white, and bold puts `\033[1m` first |
| Formatter.ColorizeInjective | src/ai_code_review/review/formatter.py:271-294 | colouring never merges two different texts |
| Formatter.NonZeroSpec | src/ai_code_review/review/formatter.py:209-216 | a counter is shown exactly when it is positive; nothing is shown exactly when no counter is |
| Formatter.FileHeaderSpec | src/ai_code_review/review/formatter.py:200-218 | the header is the bare file name exactly when the file has no issue or no positive counter; otherwise one badge per positive counter |
| Formatter.GroupedDigits | src/ai_code_review/review/formatter.py:195 | removing the separators from `{n:,}` gives `str(n)`, whose digits read back as `n` |
| Formatter.FooterSpec | src/ai_code_review/review/formatter.py:257-269 | with consistent totals the footer blocks the push exactly when there is an error and passes exactly when there is no issue |
| Formatter.SummaryOnlySpec | src/ai_code_review/review/formatter.py:296-326 | no issue gives the green no-issues line; otherwise the positive totals joined by `, `, red with errors and yellow without; a cost line only for a positive cost |
| Formatter.FormatIssueSpec | src/ai_code_review/review/formatter.py:220-255 | an unknown severity gets the white bullet; without colour an issue is its indented line plus a suggestion line when one is given |
| Formatter.RenderAppend | src/ai_code_review/review/formatter.py:52-100 | rendering two parts of a listing gives their lines one after the other |
| Formatter.TextsSpec | src/ai_code_review/review/formatter.py:52-100 | plain lines render as themselves and hold no issue entry and no marker |
| Formatter.CountsAppend | src/ai_code_review/review/formatter.py:74-95 | entries and markers of two parts add up |
| Formatter.CapCompose | src/ai_code_review/review/formatter.py:80-94 | offering issues in two groups moves the display counter as offering them together, and nothing moves once the limit is reached |
| Formatter.IssueListingSpec | src/ai_code_review/review/formatter.py:79-88 | one file's listing shows issues until the counter reaches the limit; it is cut exactly when an issue is left over, and then its one marker counts the issues not shown |
| Formatter.ChunkCounts | src/ai_code_review/review/formatter.py:74-95 | a file's chunk holds its listing's entries, and its markers are the listing's plus the boundary marker |
| Formatter.FileListingEntries | src/ai_code_review/review/formatter.py:74-95 | the listing shows as many issues as the limit lets through from the current counter |
| Formatter.FileListingAnnounced | src/ai_code_review/review/formatter.py:74-95 | the listing prints at most one marker, counting the issues not shown |
| Formatter.TotalIsPending | src/ai_code_review/review/formatter.py:85 | over consistent file results the total the marker uses is the number of issues offered |
| Formatter.TerminalCounts | src/ai_code_review/review/formatter.py:52-100 | the entries and markers of the whole terminal text are those of its file listing |
| Formatter.TerminalAsWrittenSpec | src/ai_code_review/review/formatter.py:74-95 | as written the listing shows `min(n, limit)` issues and any marker counts the rest, but it may print none though issues remain |
| Formatter.SilentCutAtFileBoundary | src/ai_code_review/review/formatter.py:84-95 | two files of one issue each under a limit of one: as written the second issue is never mentioned; corrected it is announced |
| Formatter.FileListingAnnouncedCorrected | src/ai_code_review/review/formatter.py:74-95 | the corrected listing prints the marker exactly when some offered issue is not shown |
| Formatter.TerminalSpec | src/ai_code_review/review/formatter.py:52-100 | the corrected terminal text shows `min(n, limit)` issues and prints one marker, counting the rest, exactly when some issue is not shown |
| Formatter.AppendIssueRows | src/ai_code_review/review/formatter.py:79-88 | the inner loop yields `IssueListing` |
| Formatter.AppendFileRows | src/ai_code_review/review/formatter.py:74-95 | the outer loop yields `FileListing` as written: a file stops the listing once the counter reaches the limit, and no marker is printed at that boundary |
| Formatter.FormatTerminal | src/ai_code_review/review/formatter.py:52-100 | the text is the terminal listing as written, one rendered row per line |
| Formatter.LineCellSpec | src/ai_code_review/review/formatter.py:150 | `N/A` stands exactly for a missing or zero line; any other line reads back as its number |
| Formatter.EscapePipes | src/ai_code_review/review/formatter.py:151 | escaping never shortens and never puts a pipe first |
| Formatter.EscapeRoundTrip | src/ai_code_review/review/formatter.py:151 | unescaping an escaped message gives it back |
| Formatter.PipesEscaped | src/ai_code_review/review/formatter.py:151 | every pipe of an escaped message follows a backslash, so no pipe ends a table cell |
| Formatter.TableRowsSpec | src/ai_code_review/review/formatter.py:148-152 | one table row per issue, in issue order |
| Formatter.FileSectionSpec | src/ai_code_review/review/formatter.py:136-154 | a file with issues gets its heading, its summary and one table row per issue, in order |
| Formatter.AppendTableRows | src/ai_code_review/review/formatter.py:148-152 | the row loop yields `TableRows` |
| Formatter.AppendSection | src/ai_code_review/review/formatter.py:136-154 | one file's section is `FileSection` |
| Formatter.AppendSections | src/ai_code_review/review/formatter.py:134-154 | the section loop covers the files with a non-zero total, in map order |
| Formatter.FormatMarkdown | src/ai_code_review/review/formatter.py:108-156 | the text is `MarkdownLines` joined by newlines |
| Formatter.FormatReviewResult | src/ai_code_review/review/formatter.py:34-50 | `json` goes to the serialiser, `markdown` to the Markdown text, any other name to the terminal text as written |
| Formatter.IssueCountsBySeverity | src/ai_code_review/review/formatter.py:353-360 | the keys are the four severities in order |
| Formatter.SeverityCountsSpec | src/ai_code_review/review/formatter.py:353-360 | each severity maps to its run total; with consistent totals the values add up to the issue total |
| Formatter.AllIssuesCount | src/ai_code_review/review/formatter.py:362-370 | the issues of all files are as many as the files' issue lists together |
| Formatter.Rules | src/ai_code_review/review/formatter.py:366-368 | one rule per issue, in order |
| Formatter.CountFilesStep | src/ai_code_review/review/formatter.py:365-369 | counting one more file's rules continues from the counts of the files before it |
| Formatter.IssueCountsByRule | src/ai_code_review/review/formatter.py:362-370 | the loop tallies the rules of all issues, in order |
| Formatter.RuleCountsSpec | src/ai_code_review/review/formatter.py:362-370 | each rule maps to its number of occurrences, no other key appears, and the counts add up to the number of issues |
| Formatter.FilesWithIssues | src/ai_code_review/review/formatter.py:372-377 | never more names than files |
| Formatter.FilesWithIssuesSpec | src/ai_code_review/review/formatter.py:372-377 | a name is listed exactly when a file under it has a positive total |
| Formatter.FilesWithIssuesAppend | src/ai_code_review/review/formatter.py:372-377 | names follow map order |
| Counting.CountKeysAppend | src/ai_code_review/review/formatter.py:365-369 | tallying two runs of keys is tallying the first and then the second |
| Counting.PutSum | src/ai_code_review/review/formatter.py:369 | `m[k] = v` changes the sum of the values by the difference at `k` |
| Counting.CountKeysGet | src/ai_code_review/review/formatter.py:369 | tallying adds each key's occurrences to its count; a key is present afterwards exactly when it was before or occurs |
| Counting.CountKeysSum | src/ai_code_review/review/formatter.py:369 | tallying keeps keys unique and adds one to the sum per key tallied |
| Counting.CountKeysStep | src/ai_code_review/review/formatter.py:367-369 | one loop step bumps the next key |
| Counting.CountInto | src/ai_code_review/review/formatter.py:367-369 | the loop yields `CountKeys` |
| Counting.CountKeysFresh | src/ai_code_review/review/formatter.py:369 | a key absent at the start ends up present exactly when it occurs, with its number of occurrences |
| Counting.CountKeysSpec | src/ai_code_review/review/formatter.py:362-370 | counting from nothing maps each occurring key to its occurrences, has no other key, repeats none, and sums to the number of keys |

## Left out

- Git subprocess calls are left out: `get_current_branch`, `branch_exists`, fetching, `get_diff_with_*`, `_get_file_diff` and `get_commit_message`. Diffs and `--name-status` text are inputs, and the per-file diff is a parameter whose failure is an outcome.
- YAML and JSON file reading, the search for the git root, the `os.environ` scan and template file writes are I/O. Files arrive as values, the environment as a list of pairs, and the outcome of a template write is a parameter.
- The template store is abstract: a name maps to the outcomes of reading it at each search location. `list_available_templates` and `get_template_info` only list files on disk.
- Python's built-in exceptions are modelled by their class name and message text in CPython 3.11-3.13 wording, for example `'int' object has no attribute 'items'`. Other versions word some of them differently. Tracebacks and exception chaining are not modelled.
- `json.loads`, `json.dumps`, `float()` on text and the `jsonschema` check are parameters.
  - `Validator.Validate` takes the schema's verdict as given.
  - A float with an integral value that the schema accepts as an integer is not modelled.
- `fnmatch` character classes `[...]` are matched literally. Only `*` and `?` are wildcards, and `*` matches `/`, as in `fnmatch`.
- Floating point is exact: prices, costs and sizes are `real`.
  - Binary rounding and float overflow in `parse_file_size` are not modelled.
  - The `×1.3` word estimate is `floor(13w/10)`.
  - The priority score is the source's score as an exact `real`.
  - The `:.4f` cost text is a parameter.
- `str()` of a float, list or dict is not modelled. Those values are shown through the parameters that format them.
- Case mapping (`upper`, `lower`) covers ASCII letters only.
- Strings.IsDigit: only the ASCII digits count. Python's `\d` also matches other Unicode decimal digits.
- Strings.ParseInt: only ASCII digits are read. Python's `int()` also reads other Unicode decimal digits.
- Glob.BaseName: a path ending in `/` has the empty name. `PurePath(p).name` drops the trailing `/` first.
- Engine.IssueOf: an issue field of the wrong JSON type is read as its default, for example a numeric `rule` or a textual `line`. Python keeps such a value as given.
- Engine.ParsedResponse: a `summary` that is null or not a string reads as `No summary provided`. Python keeps such a value as the result's summary.
- Engine.ParsedResponseUsable: states the summary as `ParsedResponse` reads it, so a null or non-string summary appears as `No summary provided`.
- Engine.ParseReviewResponse: returns `ParsedResponse`, with the same reading of the summary.
- Rules.UpdatePair: a pair whose key is a number, a boolean or null is dropped. Configurations are keyed by strings, so such a key cannot be held.
- Client.ParseResponse: a response field of the wrong JSON type is read as its default. Python would raise, and `_invoke_model_once` would wrap that as an unexpected error.
- Non-string items in a template list of `rule_templates` are dropped. The schema only admits strings there.
- Config.ConfigManager.Get: the lazy reload inside `get` when no configuration is loaded never fires. The manager is only created by a successful `Config.Create`.
- The thread pool of `_review_files_parallel` is concurrency. Batches are reviewed one after another, in order; completion order does not change the result map's contents.
- The boto3 session, the credential test and the network call are left out. One attempt is a parameter returning an outcome, and the backoff `time.sleep` is recorded as the list of delays.
- Logging calls, the logger setup, `ColoredFormatter` and the decorators have no effect on results.
- The catch-all `Validation error: ...` in `validate` only reports unexpected exceptions, and none can arise in the model.
- `_format_json` and `export_results` serialise and write files: `json.dumps` is a parameter and the write is I/O.
- `show_diff_context` and the interactive UI are rendering and prompts. The command-line layer only maps exceptions to exit codes, which `Exceptions.ExitCode` states.
- Rules.RuleProcessor.LoadRulesForFile: a truthy `rules` value that is not a mapping counts as no rules. Python's `dict.update` would also accept a list of pairs.
- Objects are values: no two configurations, caches or results share mutable parts, so aliasing between them is not modelled.

## Findings

The operations follow the code as written. Each corrected definition is proved beside the as-written one.

| source | as written | input that shows it | evidently intended | confidence | as-written member | corrected member |
|---|---|---|---|---|---|---|
| src/ai_code_review/config/validator.py:320-326 | `re.match(r'^[a-zA-Z0-9_-]+$', name)` lets `$` match before a final newline | the template name `"security\n"` is accepted | only letters, digits, `_` and `-` | not executed | Validator.TemplateNameTrailingNewline | Validator.TemplateNameSpec |
| src/ai_code_review/config/validator.py:179-181 | the region format check uses `^...$` with `re.match` and accepts a trailing newline | the region `"us-east-1\n"` passes the format check | a region name and nothing after it | not executed | Validator.RegionTrailingNewline | Validator.BedrockFormatCorrected |
| src/ai_code_review/review/formatter.py:74-95 | the outer loop breaks once the display limit is reached, and only the inner loop prints `... and N more issues` | two files with one issue each and `max_display_issues` 1: the second issue is never shown or mentioned | announce the remaining issues whenever the listing stops short | not executed | Formatter.SilentCutAtFileBoundary | Formatter.TerminalSpec |
