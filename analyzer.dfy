/**
 * `ChangeAnalyzer`: decides which changed files go to review (exclude and
 * include globs, binary suffixes, a diff-size limit, a cap on the number of
 * files) and derives groupings, statistics, diff chunks and a review order
 * from a `filename -> FileChange` map.
 */
module ChangeAnalyzer {
  import opened Wrappers
  import opened Strings
  import opened Glob
  import OrderedMap
  import Sorting
  import opened GitOperations

  /** The `git` section settings the analyzer reads. */
  datatype Settings = Settings(
    excludePatterns: seq<string>,
    includePatterns: seq<string>,
    binaryExtensions: seq<string>,
    maxDiffSize: int,
    maxFiles: int)

  const DefaultMaxDiffSize := 10000
  const DefaultMaxFiles := 50

  /** The settings of an empty `git` section. */
  function DefaultSettings(): (s: Settings)
    ensures s.excludePatterns == s.includePatterns == s.binaryExtensions == []
    ensures s.maxDiffSize == 10000 && s.maxFiles == 50
  {
    Settings([], [], [], DefaultMaxDiffSize, DefaultMaxFiles)
  }

  /** `lines_added + lines_removed` */
  function Size(c: FileChange): nat {
    c.linesAdded + c.linesRemoved
  }

  function SizeKey(e: (string, FileChange)): real {
    Size(e.1) as real
  }

  function NameOf(e: (string, FileChange)): string {
    e.0
  }

  /** `Path(filename).suffix.lower()` */
  function Extension(filename: string): string {
    Lower(Suffix(filename))
  }

  // ---------------------------------------------------------------------------
  // Filtering

  /** Where `analyze_changes` puts a file. */
  datatype Bucket = Excluded | Binary | Large | Passed

  /** The four tests in the order the loop applies them; the first that fires decides. */
  function BucketOf(s: Settings, filename: string, c: FileChange): Bucket {
    if MatchesAny(filename, s.excludePatterns) then Excluded
    else if s.includePatterns != [] && !MatchesAny(filename, s.includePatterns) then Excluded
    else if Extension(filename) in s.binaryExtensions then Binary
    else if Size(c) > s.maxDiffSize then Large
    else Passed
  }

  /**
   * The exclude test comes first, so an excluded binary or oversized file is
   * reported as excluded; the size limit is inclusive.
   */
  lemma BucketPrecedence(s: Settings, filename: string, c: FileChange)
    ensures MatchesAny(filename, s.excludePatterns) ==> BucketOf(s, filename, c) == Excluded
    ensures BucketOf(s, filename, c) == Excluded <==>
      MatchesAny(filename, s.excludePatterns) || (s.includePatterns != [] && !MatchesAny(filename, s.includePatterns))
    ensures BucketOf(s, filename, c) == Binary <==> BucketOf(s, filename, c) != Excluded && Extension(filename) in s.binaryExtensions
    ensures BucketOf(s, filename, c) == Large <==>
      BucketOf(s, filename, c) != Excluded && Extension(filename) !in s.binaryExtensions && Size(c) > s.maxDiffSize
    ensures Size(c) == s.maxDiffSize ==> BucketOf(s, filename, c) != Large
  {
  }

  /** The `for pattern in patterns: if fnmatch(...): return True` loop of `_should_exclude_file` and `_should_include_file`. */
  method MatchesAnyPattern(filename: string, patterns: seq<string>) returns (found: bool)
    ensures found <==> MatchesAny(filename, patterns)
  {
    var i := 0;
    while i < |patterns|
      invariant 0 <= i <= |patterns|
      invariant forall j :: 0 <= j < i ==> !Match(filename, patterns[j])
    {
      if Match(filename, patterns[i]) {
        return true;
      }
      i := i + 1;
    }
    return false;
  }

  /** `_should_include_file`: true when there are no include patterns, otherwise when one matches. */
  method ShouldIncludeFile(s: Settings, filename: string) returns (included: bool)
    ensures included <==> s.includePatterns == [] || MatchesAny(filename, s.includePatterns)
  {
    if s.includePatterns == [] {
      return true;
    }
    included := MatchesAnyPattern(filename, s.includePatterns);
  }

  /** A way of sorting files into buckets; `Classify(s)` is the one `analyze_changes` applies. */
  type Classifier = (string, FileChange) -> Bucket

  function Classify(s: Settings): Classifier {
    (filename, c) => BucketOf(s, filename, c)
  }

  /** The names of the entries that land in bucket `b`, in map order. */
  function NamesIn(bucket: Classifier, es: Changes, b: Bucket): (r: seq<string>)
    ensures |r| <= |es|
  {
    if es == [] then []
    else
      var e := es[|es| - 1];
      NamesIn(bucket, es[..|es| - 1], b) + (if bucket(e.0, e.1) == b then [e.0] else [])
  }

  /** The entries that pass all four filters, in map order. */
  function PassedEntries(bucket: Classifier, es: Changes): (r: Changes)
    ensures |r| <= |es|
  {
    if es == [] then []
    else
      var e := es[|es| - 1];
      PassedEntries(bucket, es[..|es| - 1]) + (if bucket(e.0, e.1) == Passed then [e] else [])
  }

  function SumAdded(es: Changes): nat {
    if es == [] then 0 else SumAdded(es[..|es| - 1]) + es[|es| - 1].1.linesAdded
  }

  function SumRemoved(es: Changes): nat {
    if es == [] then 0 else SumRemoved(es[..|es| - 1]) + es[|es| - 1].1.linesRemoved
  }

  /** Where Python's `s[:n]` / `s[n:]` cut a list of length `len` (a negative `n` counts from the end). */
  function SliceIndex(len: nat, n: int): (k: nat)
    ensures k <= len
    ensures 0 <= n <= len ==> k == n
  {
    if n >= 0 then (if n <= len then n else len) else if len + n >= 0 then len + n else 0
  }

  /** The passed entries, largest change first; equal sizes keep map order. */
  function BySize(passed: Changes): Changes {
    Sorting.SortByDescending(passed, SizeKey)
  }

  function Capped(s: Settings, passed: Changes): bool {
    |passed| > s.maxFiles
  }

  /** `AnalysisResult` */
  datatype Analysis = Analysis(
    filtered: Changes,
    excludedFiles: seq<string>,
    binaryFiles: seq<string>,
    largeFiles: seq<string>,
    totalLinesAdded: nat,
    totalLinesRemoved: nat,
    fileCount: nat)

  /** What `analyze_changes` returns, written as a function of its input. */
  function Analyze(s: Settings, changes: Changes): Analysis {
    var bucket := Classify(s);
    var passed := PassedEntries(bucket, changes);
    var cut := SliceIndex(|passed|, s.maxFiles);
    var filtered := if Capped(s, passed) then BySize(passed)[..cut] else passed;
    var dropped := if Capped(s, passed) then OrderedMap.Keys(BySize(passed)[cut..]) else [];
    Analysis(
      filtered,
      NamesIn(bucket, changes, Excluded) + dropped,
      NamesIn(bucket, changes, Binary),
      NamesIn(bucket, changes, Large),
      SumAdded(passed),
      SumRemoved(passed),
      |filtered|)
  }

  lemma PassedKeysFromInput(bucket: Classifier, es: Changes, k: string)
    requires OrderedMap.HasKey(PassedEntries(bucket, es), k)
    ensures OrderedMap.HasKey(es, k)
    decreases |es|
  {
    var ks := OrderedMap.Keys(PassedEntries(bucket, es));
    var i :| 0 <= i < |ks| && ks[i] == k;
    PassedIsSubsequence(bucket, es);
    assert PassedEntries(bucket, es)[i] in es;
    var j :| 0 <= j < |es| && es[j] == PassedEntries(bucket, es)[i];
    assert OrderedMap.Keys(es)[j] == k;
  }

  lemma {:induction false} PassedIsSubsequence(bucket: Classifier, es: Changes)
    ensures forall e :: e in PassedEntries(bucket, es) ==> e in es
    decreases |es|
  {
    if es != [] {
      PassedIsSubsequence(bucket, es[..|es| - 1]);
      forall e | e in PassedEntries(bucket, es) ensures e in es {
        if e in PassedEntries(bucket, es[..|es| - 1]) {
          assert e in es[..|es| - 1];
        }
      }
    }
  }

  /** The four lists and the two totals of the filtering loop. */
  datatype Triage = Triage(filtered: Changes, excluded: seq<string>, binary: seq<string>, large: seq<string>, totalAdded: nat, totalRemoved: nat)

  /** What the filtering loop has produced after the entries `es`. */
  function TriageOf(bucket: Classifier, es: Changes): Triage {
    var passed := PassedEntries(bucket, es);
    Triage(passed, NamesIn(bucket, es, Excluded), NamesIn(bucket, es, Binary), NamesIn(bucket, es, Large), SumAdded(passed), SumRemoved(passed))
  }

  /** The four tests of the filtering loop's body, in the order the loop applies them. */
  method Route(s: Settings, filename: string, change: FileChange) returns (b: Bucket)
    ensures b == BucketOf(s, filename, change)
  {
    var exclude := MatchesAnyPattern(filename, s.excludePatterns);
    if exclude {
      return Excluded;
    }
    var included := ShouldIncludeFile(s, filename);
    if s.includePatterns != [] && !included {
      return Excluded;
    }
    if Extension(filename) in s.binaryExtensions {
      return Binary;
    }
    var totalChangeLines := change.linesAdded + change.linesRemoved;
    if totalChangeLines > s.maxDiffSize {
      return Large;
    }
    return Passed;
  }

  /** The rest of the filtering loop's body: the file's name or entry joins the list of bucket `b`. */
  method Place(t: Triage, b: Bucket, filename: string, change: FileChange) returns (t': Triage)
    requires !OrderedMap.HasKey(t.filtered, filename)
    ensures t' == AdvanceBy(b, t, (filename, change))
  {
    match b
    case Excluded =>
      t' := t.(excluded := t.excluded + [filename]);
    case Binary =>
      t' := t.(binary := t.binary + [filename]);
    case Large =>
      t' := t.(large := t.large + [filename]);
    case Passed =>
      OrderedMap.PutFresh(t.filtered, filename, change);
      t' := t.(filtered := OrderedMap.Put(t.filtered, filename, change),
               totalAdded := t.totalAdded + change.linesAdded,
               totalRemoved := t.totalRemoved + change.linesRemoved);
  }

  /** The filtering loop of `analyze_changes`: every file goes to the first bucket whose test fires. */
  method FilterChanges(s: Settings, changes: Changes) returns (t: Triage)
    requires OrderedMap.UniqueKeys(changes)
    ensures t == TriageOf(Classify(s), changes)
  {
    t := Triage([], [], [], [], 0, 0);
    var i := 0;
    while i < |changes|
      invariant 0 <= i <= |changes|
      invariant t == TriageOf(Classify(s), changes[..i])
    {
      TriageSnoc(Classify(s), changes, i);
      PassedFresh(Classify(s), changes, i);
      var (filename, change) := changes[i];
      var b := Route(s, filename, change);
      assert Classify(s)(filename, change) == b;
      t := Place(t, b, filename, change);
      i := i + 1;
    }
    assert changes[..i] == changes;
  }

  /**
   * `analyze_changes`: the filtering loop, then the cap.  A Python dict has
   * distinct keys, so assigning `filtered_changes[filename]` always
   * appends; `dict(sorted_files[:n])` keeps the sorted order.
   */
  method AnalyzeChanges(s: Settings, changes: Changes) returns (a: Analysis)
    requires OrderedMap.UniqueKeys(changes)
    ensures a == Analyze(s, changes)
  {
    var t := FilterChanges(s, changes);
    var filtered := t.filtered;
    var excluded := t.excluded;
    if |filtered| > s.maxFiles {
      var sortedFiles := Sorting.SortByDescending(filtered, SizeKey);
      var cut := SliceIndex(|sortedFiles|, s.maxFiles);
      var limited := sortedFiles[..cut];
      excluded := excluded + OrderedMap.Keys(sortedFiles[cut..]);
      filtered := limited;
    }
    a := Analysis(filtered, excluded, t.binary, t.large, t.totalAdded, t.totalRemoved, |filtered|);
  }

  /** A name not yet seen is not among the passed entries so far. */
  lemma PassedFresh(bucket: Classifier, changes: Changes, i: nat)
    requires OrderedMap.UniqueKeys(changes) && i < |changes|
    ensures !OrderedMap.HasKey(PassedEntries(bucket, changes[..i]), changes[i].0)
  {
    OrderedMap.UniqueNotInPrefix(changes, i);
    if OrderedMap.HasKey(PassedEntries(bucket, changes[..i]), changes[i].0) {
      PassedKeysFromInput(bucket, changes[..i], changes[i].0);
    }
  }

  /** One step of the filtering loop: entry `e` is appended to the list of its bucket. */
  function Advance(bucket: Classifier, t: Triage, e: (string, FileChange)): Triage {
    AdvanceBy(bucket(e.0, e.1), t, e)
  }

  function AdvanceBy(b: Bucket, t: Triage, e: (string, FileChange)): Triage {
    match b
    case Excluded => t.(excluded := t.excluded + [e.0])
    case Binary => t.(binary := t.binary + [e.0])
    case Large => t.(large := t.large + [e.0])
    case Passed => t.(filtered := t.filtered + [e], totalAdded := t.totalAdded + e.1.linesAdded,
                      totalRemoved := t.totalRemoved + e.1.linesRemoved)
  }

  /** The loop's state after entry `i` is the state before it, advanced by that entry. */
  lemma TriageSnoc(bucket: Classifier, changes: Changes, i: nat)
    requires i < |changes|
    ensures TriageOf(bucket, changes[..i + 1]) == Advance(bucket, TriageOf(bucket, changes[..i]), changes[i])
  {
    if bucket(changes[i].0, changes[i].1) == Passed {
      TriageSnocPassed(bucket, changes, i);
    } else {
      TriageSnocHeld(bucket, changes, i);
    }
  }

  lemma TriageSnocPassed(bucket: Classifier, changes: Changes, i: nat)
    requires i < |changes| && bucket(changes[i].0, changes[i].1) == Passed
    ensures var t := TriageOf(bucket, changes[..i]); var e := changes[i];
      TriageOf(bucket, changes[..i + 1]) == t.(filtered := t.filtered + [e], totalAdded := t.totalAdded + e.1.linesAdded,
                                          totalRemoved := t.totalRemoved + e.1.linesRemoved)
  {
    var p := PassedEntries(bucket, changes[..i]);
    var e := changes[i];
    PassedSnoc(bucket, changes, i);
    assert PassedEntries(bucket, changes[..i + 1]) == p + [e];
    SumsSnoc(p, e);
    NamesInSnoc(bucket, changes, i, Excluded);
    NamesInSnoc(bucket, changes, i, Binary);
    NamesInSnoc(bucket, changes, i, Large);
  }

  lemma SumsSnoc(p: Changes, e: (string, FileChange))
    ensures SumAdded(p + [e]) == SumAdded(p) + e.1.linesAdded
    ensures SumRemoved(p + [e]) == SumRemoved(p) + e.1.linesRemoved
  {
    var q := p + [e];
    assert q[..|q| - 1] == p && q[|q| - 1] == e;
  }

  lemma TriageSnocHeld(bucket: Classifier, changes: Changes, i: nat)
    requires i < |changes| && bucket(changes[i].0, changes[i].1) != Passed
    ensures var t := TriageOf(bucket, changes[..i]); var e := changes[i]; var b := bucket(e.0, e.1);
      TriageOf(bucket, changes[..i + 1]) ==
        t.(excluded := t.excluded + (if b == Excluded then [e.0] else []),
           binary := t.binary + (if b == Binary then [e.0] else []),
           large := t.large + (if b == Large then [e.0] else []))
  {
    PassedSnoc(bucket, changes, i);
    NamesInSnoc(bucket, changes, i, Excluded);
    NamesInSnoc(bucket, changes, i, Binary);
    NamesInSnoc(bucket, changes, i, Large);
    var t := TriageOf(bucket, changes[..i]);
    assert t.excluded + [] == t.excluded && t.binary + [] == t.binary && t.large + [] == t.large;
  }

  /** Entry `i` joins the passed entries exactly when it lands in no other bucket. */
  lemma PassedSnoc(bucket: Classifier, changes: Changes, i: nat)
    requires i < |changes|
    ensures PassedEntries(bucket, changes[..i + 1]) ==
      if bucket(changes[i].0, changes[i].1) == Passed then PassedEntries(bucket, changes[..i]) + [changes[i]] else PassedEntries(bucket, changes[..i])
  {
    var es := changes[..i + 1];
    assert es[..|es| - 1] == changes[..i] && es[|es| - 1] == changes[i];
    assert PassedEntries(bucket, changes[..i]) + [] == PassedEntries(bucket, changes[..i]);
  }

  /** Entry `i`'s name joins the list of its own bucket only. */
  lemma NamesInSnoc(bucket: Classifier, changes: Changes, i: nat, c: Bucket)
    requires i < |changes|
    ensures NamesIn(bucket, changes[..i + 1], c) ==
      if bucket(changes[i].0, changes[i].1) == c then NamesIn(bucket, changes[..i], c) + [changes[i].0] else NamesIn(bucket, changes[..i], c)
  {
    var es := changes[..i + 1];
    assert es[..|es| - 1] == changes[..i] && es[|es| - 1] == changes[i];
    assert NamesIn(bucket, changes[..i], c) + [] == NamesIn(bucket, changes[..i], c);
  }

  /** The occurrences of a name in the input and in the four lists grow by the last entry, in its own bucket only. */
  lemma BucketsSnoc(bucket: Classifier, es: Changes, n: string)
    requires es != []
    ensures var init, e := es[..|es| - 1], es[|es| - 1]; var b := bucket(e.0, e.1);
      var one := if e.0 == n then 1 else 0;
      multiset(OrderedMap.Keys(es))[n] == multiset(OrderedMap.Keys(init))[n] + one &&
      multiset(OrderedMap.Keys(PassedEntries(bucket, es)))[n] ==
        multiset(OrderedMap.Keys(PassedEntries(bucket, init)))[n] + (if b == Passed then one else 0) &&
      multiset(NamesIn(bucket, es, Excluded))[n] == multiset(NamesIn(bucket, init, Excluded))[n] + (if b == Excluded then one else 0) &&
      multiset(NamesIn(bucket, es, Binary))[n] == multiset(NamesIn(bucket, init, Binary))[n] + (if b == Binary then one else 0) &&
      multiset(NamesIn(bucket, es, Large))[n] == multiset(NamesIn(bucket, init, Large))[n] + (if b == Large then one else 0)
  {
    var init, e := es[..|es| - 1], es[|es| - 1];
    assert es == init + [e];
    OrderedMap.KeysAppend(init, [e]);
    var passedE: Changes := if bucket(e.0, e.1) == Passed then [e] else [];
    OrderedMap.KeysAppend(PassedEntries(bucket, init), passedE);
  }

  /** Each name occurs in the input as often as in the four lists together. */
  lemma {:induction false} BucketsPartition(bucket: Classifier, es: Changes, n: string)
    ensures multiset(OrderedMap.Keys(es))[n] ==
      multiset(OrderedMap.Keys(PassedEntries(bucket, es)))[n] + multiset(NamesIn(bucket, es, Excluded))[n]
      + multiset(NamesIn(bucket, es, Binary))[n] + multiset(NamesIn(bucket, es, Large))[n]
    decreases |es|
  {
    if es != [] {
      BucketsPartition(bucket, es[..|es| - 1], n);
      BucketsSnoc(bucket, es, n);
      var e := es[|es| - 1];
      match bucket(e.0, e.1)
      case Excluded =>
      case Binary =>
      case Large =>
      case Passed =>
    }
  }

  lemma KeysAreNames(m: Changes)
    ensures OrderedMap.Keys(m) == Sorting.Project(m, NameOf)
  {
  }

  /**
   * Every input filename ends up in exactly one of the four result lists
   * (the multiset of names is split among them; the input names are distinct).
   */
  lemma AnalyzePartitions(s: Settings, changes: Changes)
    ensures var a := Analyze(s, changes);
      multiset(OrderedMap.Keys(changes)) ==
        multiset(OrderedMap.Keys(a.filtered)) + multiset(a.excludedFiles) + multiset(a.binaryFiles) + multiset(a.largeFiles)
  {
    NamesPartition(Classify(s), changes);
    CapMovesToExcluded(s, changes);
    AnalyzeKeepsLists(s, changes);
  }

  /** The input names are split among the passed entries and the three name lists. */
  lemma NamesPartition(bucket: Classifier, es: Changes)
    ensures multiset(OrderedMap.Keys(es)) ==
      multiset(OrderedMap.Keys(PassedEntries(bucket, es))) + multiset(NamesIn(bucket, es, Excluded))
      + multiset(NamesIn(bucket, es, Binary)) + multiset(NamesIn(bucket, es, Large))
  {
    forall n ensures multiset(OrderedMap.Keys(es))[n] ==
      (multiset(OrderedMap.Keys(PassedEntries(bucket, es))) + multiset(NamesIn(bucket, es, Excluded))
      + multiset(NamesIn(bucket, es, Binary)) + multiset(NamesIn(bucket, es, Large)))[n] {
      BucketsPartition(bucket, es, n);
    }
  }

  /** The binary and large lists of the result are those of the filtering loop. */
  lemma AnalyzeKeepsLists(s: Settings, changes: Changes)
    ensures Analyze(s, changes).binaryFiles == NamesIn(Classify(s), changes, Binary)
    ensures Analyze(s, changes).largeFiles == NamesIn(Classify(s), changes, Large)
  {
  }

  /** The cap moves names from the passed files to the excluded ones and loses none. */
  lemma CapMovesToExcluded(s: Settings, changes: Changes)
    ensures var bucket := Classify(s); var a := Analyze(s, changes);
      multiset(OrderedMap.Keys(PassedEntries(bucket, changes))) + multiset(NamesIn(bucket, changes, Excluded)) ==
      multiset(OrderedMap.Keys(a.filtered)) + multiset(a.excludedFiles)
  {
    var bucket := Classify(s);
    var passed := PassedEntries(bucket, changes);
    var a := Analyze(s, changes);
    if Capped(s, passed) {
      var cut := SliceIndex(|passed|, s.maxFiles);
      assert a.filtered == BySize(passed)[..cut];
      assert a.excludedFiles == NamesIn(bucket, changes, Excluded) + OrderedMap.Keys(BySize(passed)[cut..]);
      CapSplits(passed, cut);
    } else {
      assert a.filtered == passed;
      assert a.excludedFiles == NamesIn(bucket, changes, Excluded) + [];
    }
  }

  /** Cutting the size-sorted list anywhere splits the names of the passed files between the two halves. */
  lemma CapSplits(passed: Changes, cut: nat)
    requires cut <= |passed|
    ensures multiset(OrderedMap.Keys(passed)) ==
      multiset(OrderedMap.Keys(BySize(passed)[..cut])) + multiset(OrderedMap.Keys(BySize(passed)[cut..]))
  {
    SortKeepsNames(passed);
    OrderedMap.KeysSplit(BySize(passed), cut);
  }

  /** Sorting by size keeps the multiset of names. */
  lemma SortKeepsNames(passed: Changes)
    ensures multiset(OrderedMap.Keys(passed)) == multiset(OrderedMap.Keys(BySize(passed)))
  {
    KeysAreNames(BySize(passed));
    KeysAreNames(passed);
    Sorting.ProjectSort(passed, Sorting.Negated(SizeKey), NameOf);
  }

  /**
   * When more files pass than `max_files` (a non-negative cap), exactly
   * `max_files` stay, and none of them is smaller than a file the cap
   * dropped.
   */
  lemma CapKeepsLargest(s: Settings, changes: Changes)
    requires 0 <= s.maxFiles < |PassedEntries(Classify(s), changes)|
    ensures var a := Analyze(s, changes);
      var dropped := BySize(PassedEntries(Classify(s), changes))[s.maxFiles..];
      |a.filtered| == a.fileCount == s.maxFiles &&
      forall i, j :: 0 <= i < |a.filtered| && 0 <= j < |dropped| ==> Size(a.filtered[i].1) >= Size(dropped[j].1)
  {
    var passed := PassedEntries(Classify(s), changes);
    var sorted := BySize(passed);
    assert SliceIndex(|passed|, s.maxFiles) == s.maxFiles;
    assert Analyze(s, changes).filtered == sorted[..s.maxFiles];
    Sorting.SortByDescendingSpec(passed, SizeKey);
    forall i, j | 0 <= i < s.maxFiles && 0 <= j < |sorted| - s.maxFiles
      ensures Size(sorted[i].1) >= Size(sorted[s.maxFiles..][j].1)
    {
      assert SizeKey(sorted[i]) >= SizeKey(sorted[s.maxFiles + j]);
    }
  }

  /**
   * Ties are broken by map order: for every size, the kept files of that
   * size followed by the dropped ones are exactly the passed files of that
   * size in their original order.
   */
  lemma CapIsStable(s: Settings, changes: Changes, size: real)
    requires Capped(s, PassedEntries(Classify(s), changes))
    ensures var passed := PassedEntries(Classify(s), changes);
      var cut := SliceIndex(|passed|, s.maxFiles);
      Sorting.WithKey(Analyze(s, changes).filtered, SizeKey, size) + Sorting.WithKey(BySize(passed)[cut..], SizeKey, size)
        == Sorting.WithKey(passed, SizeKey, size)
  {
    var passed := PassedEntries(Classify(s), changes);
    var sorted := BySize(passed);
    var cut := SliceIndex(|passed|, s.maxFiles);
    assert sorted == sorted[..cut] + sorted[cut..];
    Sorting.WithKeyAppend(sorted[..cut], sorted[cut..], SizeKey, size);
    Sorting.SortByDescendingStable(passed, SizeKey, size);
  }

  // ---------------------------------------------------------------------------
  // Groupings and statistics

  /** The names of the entries whose status is `status`, in map order. */
  function NamesWithStatus(es: Changes, status: char): (r: seq<string>)
    ensures |r| <= |es|
  {
    if es == [] then []
    else
      var e := es[|es| - 1];
      NamesWithStatus(es[..|es| - 1], status) + (if e.1.status == status then [e.0] else [])
  }

  lemma {:induction false} NamesWithStatusMembers(es: Changes, status: char, name: string)
    ensures name in NamesWithStatus(es, status) <==> exists i :: 0 <= i < |es| && es[i].0 == name && es[i].1.status == status
    decreases |es|
  {
    if es != [] {
      var init := es[..|es| - 1];
      NamesWithStatusMembers(init, status, name);
      if exists i :: 0 <= i < |es| && es[i].0 == name && es[i].1.status == status {
        var i :| 0 <= i < |es| && es[i].0 == name && es[i].1.status == status;
        if i < |init| {
          assert init[i] == es[i];
        }
      }
      if name in NamesWithStatus(init, status) {
        var i :| 0 <= i < |init| && init[i].0 == name && init[i].1.status == status;
        assert es[i] == init[i];
      }
    }
  }

  /** The five lists of `categorize_changes`. */
  datatype Categories = Categories(added: seq<string>, modified: seq<string>, deleted: seq<string>, renamed: seq<string>, copied: seq<string>)

  /** `categorize_changes`: a file lands in the list of its status; other statuses are dropped. */
  method CategorizeChanges(changes: Changes) returns (c: Categories)
    ensures c.added == NamesWithStatus(changes, 'A') && c.modified == NamesWithStatus(changes, 'M')
    ensures c.deleted == NamesWithStatus(changes, 'D') && c.renamed == NamesWithStatus(changes, 'R')
    ensures c.copied == NamesWithStatus(changes, 'C')
  {
    c := Categories([], [], [], [], []);
    var i := 0;
    while i < |changes|
      invariant 0 <= i <= |changes|
      invariant c.added == NamesWithStatus(changes[..i], 'A') && c.modified == NamesWithStatus(changes[..i], 'M')
      invariant c.deleted == NamesWithStatus(changes[..i], 'D') && c.renamed == NamesWithStatus(changes[..i], 'R')
      invariant c.copied == NamesWithStatus(changes[..i], 'C')
    {
      var (filename, change) := changes[i];
      assert changes[..i + 1][..i] == changes[..i] && changes[..i + 1][i] == changes[i];
      if change.status == 'A' {
        c := c.(added := c.added + [filename]);
      } else if change.status == 'M' {
        c := c.(modified := c.modified + [filename]);
      } else if change.status == 'D' {
        c := c.(deleted := c.deleted + [filename]);
      } else if change.status == 'R' {
        c := c.(renamed := c.renamed + [filename]);
      } else if change.status == 'C' {
        c := c.(copied := c.copied + [filename]);
      }
      i := i + 1;
    }
    assert changes[..i] == changes;
  }

  /** The key `get_file_types` files a name under. */
  function FileType(filename: string): (t: string)
    ensures t != []
  {
    if Extension(filename) == [] then "no_extension" else Extension(filename)
  }

  /** How a name is filed: `FileType` in `get_file_types`; kept abstract so proofs never unfold it. */
  type Kind = string -> string

  type TypeMap = OrderedMap.Dict<string, seq<string>>

  /** The names whose kind is `t`, in map order. */
  function NamesOfType(kind: Kind, es: Changes, t: string): (r: seq<string>)
    ensures |r| <= |es|
    ensures forall i :: 0 <= i < |r| ==> kind(r[i]) == t
  {
    if es == [] then []
    else
      var e := es[|es| - 1];
      NamesOfType(kind, es[..|es| - 1], t) + (if kind(e.0) == t then [e.0] else [])
  }

  /** The group stored under `t`: absent exactly when no file has that kind. */
  function TypeGroup(kind: Kind, es: Changes, t: string): Option<seq<string>> {
    if NamesOfType(kind, es, t) == [] then None else Some(NamesOfType(kind, es, t))
  }

  /** One round of `get_file_types`' loop: create the empty group if needed, then append the name. */
  function AddToGroup(types: TypeMap, key: string, filename: string): TypeMap {
    var middle := if OrderedMap.HasKey(types, key) then types else OrderedMap.Put(types, key, []);
    OrderedMap.Put(middle, key, OrderedMap.GetOr(middle, key, []) + [filename])
  }

  /** The dict `get_file_types` has built after the entries `es`. */
  function TypesOf(kind: Kind, es: Changes): TypeMap {
    if es == [] then [] else AddToGroup(TypesOf(kind, es[..|es| - 1]), kind(es[|es| - 1].0), es[|es| - 1].0)
  }

  /** The group of the round's own key before the round is the names of that kind seen so far. */
  lemma CurrentGroup(kind: Kind, es: Changes, types: TypeMap, key: string)
    requires OrderedMap.Get(types, key) == TypeGroup(kind, es, key)
    ensures var middle := if OrderedMap.HasKey(types, key) then types else OrderedMap.Put(types, key, []);
      OrderedMap.GetOr(middle, key, []) == NamesOfType(kind, es, key)
  {
    if !OrderedMap.HasKey(types, key) {
      OrderedMap.PutGet(types, key, [], key);
    }
  }

  /** The last entry extends only the group of its own kind. */
  lemma NamesOfTypeSnoc(kind: Kind, es: Changes, t: string)
    requires es != []
    ensures var e := es[|es| - 1];
      NamesOfType(kind, es, t) == NamesOfType(kind, es[..|es| - 1], t) + (if kind(e.0) == t then [e.0] else [])
  {
  }

  /** The round for the last entry keeps every group equal to the names of its kind seen so far. */
  lemma TypesOfSnoc(kind: Kind, es: Changes, t: string)
    requires es != []
    requires var init := es[..|es| - 1];
      OrderedMap.Get(TypesOf(kind, init), t) == TypeGroup(kind, init, t) &&
      OrderedMap.Get(TypesOf(kind, init), kind(es[|es| - 1].0)) == TypeGroup(kind, init, kind(es[|es| - 1].0))
    ensures OrderedMap.Get(TypesOf(kind, es), t) == TypeGroup(kind, es, t)
  {
    var init, name := es[..|es| - 1], es[|es| - 1].0;
    var types := TypesOf(kind, init);
    var key := kind(name);
    var middle := if OrderedMap.HasKey(types, key) then types else OrderedMap.Put(types, key, []);
    CurrentGroup(kind, init, types, key);
    OrderedMap.PutGet(middle, key, OrderedMap.GetOr(middle, key, []) + [name], t);
    NamesOfTypeSnoc(kind, es, t);
    if t != key {
      OrderedMap.PutGet(types, key, [], t);
      assert NamesOfType(kind, init, t) + [] == NamesOfType(kind, init, t);
    }
  }

  /** `get_file_types`' dict maps every kind that occurs to its files, in map order, and holds no other key. */
  lemma {:induction false} TypesOfGroups(kind: Kind, es: Changes, t: string)
    ensures OrderedMap.Get(TypesOf(kind, es), t) == TypeGroup(kind, es, t)
    decreases |es|
  {
    if es != [] {
      var init := es[..|es| - 1];
      TypesOfGroups(kind, init, t);
      TypesOfGroups(kind, init, kind(es[|es| - 1].0));
      TypesOfSnoc(kind, es, t);
    }
  }

  lemma TypesOfPrefix(kind: Kind, es: Changes, i: nat)
    requires i < |es|
    ensures TypesOf(kind, es[..i + 1]) == AddToGroup(TypesOf(kind, es[..i]), kind(es[i].0), es[i].0)
  {
    assert es[..i + 1][..i] == es[..i];
  }

  lemma AllGroups(kind: Kind, es: Changes)
    ensures forall t :: OrderedMap.Get(TypesOf(kind, es), t) == TypeGroup(kind, es, t)
  {
    forall t ensures OrderedMap.Get(TypesOf(kind, es), t) == TypeGroup(kind, es, t) {
      TypesOfGroups(kind, es, t);
    }
  }

  /** The body of `get_file_types`' loop. */
  method AddFile(types: TypeMap, fileExt: string, filename: string) returns (types': TypeMap)
    ensures types' == AddToGroup(types, fileExt, filename)
  {
    types' := types;
    if !OrderedMap.HasKey(types', fileExt) {
      types' := OrderedMap.Put(types', fileExt, []);
    }
    var current := OrderedMap.GetOr(types', fileExt, []);
    types' := OrderedMap.Put(types', fileExt, current + [filename]);
  }

  /**
   * The loop of `get_file_types`, with the key it computes for each name
   * (`FileType`) passed in as `kind`.
   */
  method GroupByKind(changes: Changes, kind: Kind) returns (types: TypeMap)
    ensures types == TypesOf(kind, changes)
    ensures forall t :: OrderedMap.Get(types, t) == TypeGroup(kind, changes, t)
  {
    types := [];
    var i := 0;
    while i < |changes|
      invariant 0 <= i <= |changes|
      invariant types == TypesOf(kind, changes[..i])
    {
      TypesOfPrefix(kind, changes, i);
      var filename := changes[i].0;
      var fileExt := kind(filename);
      types := AddFile(types, fileExt, filename);
      i := i + 1;
    }
    assert changes[..i] == changes;
    AllGroups(kind, changes);
  }

  /** `get_file_types`: every type that occurs maps to its files, in map order; no other key exists. */
  method GetFileTypes(changes: Changes) returns (types: TypeMap)
    ensures forall t :: OrderedMap.Get(types, t) == TypeGroup(FileType, changes, t)
  {
    types := GroupByKind(changes, FileType);
  }


  /** The `stats` dict of `get_change_statistics`. */
  datatype Statistics = Statistics(
    totalFiles: nat,
    totalLinesAdded: nat,
    totalLinesRemoved: nat,
    filesAdded: nat,
    filesModified: nat,
    filesDeleted: nat,
    filesRenamed: nat,
    largestChange: nat,
    smallestChange: nat)

  /** The largest `lines_added + lines_removed`, or 0 for no entries (the loop starts from 0). */
  function MaxSize(es: Changes): nat {
    if es == [] then 0
    else
      var m, x := MaxSize(es[..|es| - 1]), Size(es[|es| - 1].1);
      if x > m then x else m
  }

  /** The smallest `lines_added + lines_removed`, or 0 for no entries. */
  function MinSize(es: Changes): nat {
    if es == [] then 0
    else if |es| == 1 then Size(es[0].1)
    else
      var m, x := MinSize(es[..|es| - 1]), Size(es[|es| - 1].1);
      if x < m then x else m
  }

  /** The statistics of the entries `es`, as `get_change_statistics` reports them. */
  function StatisticsOf(es: Changes): Statistics {
    Statistics(|es|, SumAdded(es), SumRemoved(es),
      |NamesWithStatus(es, 'A')|, |NamesWithStatus(es, 'M')|, |NamesWithStatus(es, 'D')|, |NamesWithStatus(es, 'R')|,
      MaxSize(es), MinSize(es))
  }

  /**
   * `get_change_statistics`.  Copied files are not counted by status.
   * `smallest_change` starts at infinity (here `None`) and becomes 0 when
   * there are no changes.
   */
  method GetChangeStatistics(changes: Changes) returns (st: Statistics)
    ensures st == StatisticsOf(changes)
  {
    st := Statistics(|changes|, 0, 0, 0, 0, 0, 0, 0, 0);
    var smallest: Option<nat> := None;
    var i := 0;
    while i < |changes|
      invariant 0 <= i <= |changes|
      invariant st == StatisticsOf(changes[..i]).(totalFiles := |changes|, smallestChange := 0)
      invariant smallest == if i == 0 then None else Some(MinSize(changes[..i]))
    {
      StatisticsStep(changes, i);
      st, smallest := Tally(st, smallest, changes[i].1);
      i := i + 1;
    }
    assert changes[..i] == changes;
    st := st.(smallestChange := if smallest.None? then 0 else smallest.value);
  }

  /** The body of `get_change_statistics`' loop: one file's contribution to every statistic. */
  method Tally(st: Statistics, smallest: Option<nat>, change: FileChange) returns (st': Statistics, smallest': Option<nat>)
    ensures st' == st.(totalLinesAdded := st.totalLinesAdded + change.linesAdded,
                       totalLinesRemoved := st.totalLinesRemoved + change.linesRemoved,
                       filesAdded := st.filesAdded + (if change.status == 'A' then 1 else 0),
                       filesModified := st.filesModified + (if change.status == 'M' then 1 else 0),
                       filesDeleted := st.filesDeleted + (if change.status == 'D' then 1 else 0),
                       filesRenamed := st.filesRenamed + (if change.status == 'R' then 1 else 0),
                       largestChange := if Size(change) > st.largestChange then Size(change) else st.largestChange)
    ensures smallest' == if smallest.None? || Size(change) < smallest.value then Some(Size(change)) else smallest
  {
    st' := st.(totalLinesAdded := st.totalLinesAdded + change.linesAdded,
               totalLinesRemoved := st.totalLinesRemoved + change.linesRemoved);
    if change.status == 'A' {
      st' := st'.(filesAdded := st'.filesAdded + 1);
    } else if change.status == 'M' {
      st' := st'.(filesModified := st'.filesModified + 1);
    } else if change.status == 'D' {
      st' := st'.(filesDeleted := st'.filesDeleted + 1);
    } else if change.status == 'R' {
      st' := st'.(filesRenamed := st'.filesRenamed + 1);
    }
    var totalLines := change.linesAdded + change.linesRemoved;
    if totalLines > st'.largestChange {
      st' := st'.(largestChange := totalLines);
    }
    smallest' := smallest;
    if smallest.None? || totalLines < smallest.value {
      smallest' := Some(totalLines);
    }
  }

  /** How every statistic changes with entry `i`. */
  lemma StatisticsStep(changes: Changes, i: nat)
    requires i < |changes|
    ensures var pre, e := changes[..i], changes[i]; var post := changes[..i + 1];
      SumAdded(post) == SumAdded(pre) + e.1.linesAdded &&
      SumRemoved(post) == SumRemoved(pre) + e.1.linesRemoved &&
      (forall c :: |NamesWithStatus(post, c)| == |NamesWithStatus(pre, c)| + (if e.1.status == c then 1 else 0)) &&
      MaxSize(post) == (if Size(e.1) > MaxSize(pre) then Size(e.1) else MaxSize(pre)) &&
      MinSize(post) == (if i == 0 || Size(e.1) < MinSize(pre) then Size(e.1) else MinSize(pre))
  {
    assert changes[..i + 1][..i] == changes[..i] && changes[..i + 1][i] == changes[i];
  }

  /**
   * Every file's size lies between the reported smallest and largest change,
   * and both are sizes of actual files; with no files both are 0.
   */
  lemma {:induction false} StatisticsBounds(es: Changes)
    ensures forall i :: 0 <= i < |es| ==> MinSize(es) <= Size(es[i].1) <= MaxSize(es)
    ensures es == [] ==> MaxSize(es) == 0 && MinSize(es) == 0
    ensures es != [] ==> (exists i :: 0 <= i < |es| && Size(es[i].1) == MaxSize(es)) &&
                         (exists j :: 0 <= j < |es| && Size(es[j].1) == MinSize(es))
    decreases |es|
  {
    if es != [] {
      var pre := es[..|es| - 1];
      StatisticsBounds(pre);
      forall i | 0 <= i < |es| ensures MinSize(es) <= Size(es[i].1) <= MaxSize(es) {
        if i < |pre| { assert es[i] == pre[i]; }
      }
      if |es| > 1 {
        var i :| 0 <= i < |pre| && Size(pre[i].1) == MaxSize(pre);
        var j :| 0 <= j < |pre| && Size(pre[j].1) == MinSize(pre);
        assert es[i] == pre[i] && es[j] == pre[j];
      }
    }
  }

  /** The statistics count every file once: the per-status counts never exceed the total. */
  lemma StatusCountsBounded(es: Changes)
    ensures var st := StatisticsOf(es); st.filesAdded + st.filesModified + st.filesDeleted + st.filesRenamed <= st.totalFiles
  {
    StatusCountsSum(es);
  }

  lemma {:induction false} StatusCountsSum(es: Changes)
    ensures |NamesWithStatus(es, 'A')| + |NamesWithStatus(es, 'M')| + |NamesWithStatus(es, 'D')| + |NamesWithStatus(es, 'R')| <= |es|
    decreases |es|
  {
    if es != [] {
      StatusCountsSum(es[..|es| - 1]);
    }
  }

  // ---------------------------------------------------------------------------
  // Diff chunking

  predicate IsHeaderLine(line: string) {
    StartsWith(line, "diff --git") || StartsWith(line, "index ") || StartsWith(line, "---") || StartsWith(line, "+++")
  }

  /** The number of leading header lines. */
  function HeaderCount(lines: seq<string>): (n: nat)
    ensures n <= |lines|
    ensures forall i :: 0 <= i < n ==> IsHeaderLine(lines[i])
    ensures n < |lines| ==> !IsHeaderLine(lines[n])
  {
    if lines == [] || !IsHeaderLine(lines[0]) then 0 else 1 + HeaderCount(lines[1..])
  }

  /** `content` cut into runs of `k` lines, the last run possibly shorter. */
  function Groups(content: seq<string>, k: nat): seq<seq<string>>
    requires k >= 1
    decreases |content|
  {
    if content == [] then []
    else if |content| <= k then [content]
    else [content[..k]] + Groups(content[k..], k)
  }

  function Concat(gs: seq<seq<string>>): seq<string> {
    if gs == [] then [] else gs[0] + Concat(gs[1..])
  }

  /**
   * The groups give back the content when concatenated, none is empty, none
   * is longer than `k`, and all but the last have exactly `k` lines.
   */
  lemma {:induction false} GroupsPartition(content: seq<string>, k: nat)
    requires k >= 1
    ensures Concat(Groups(content, k)) == content
    ensures forall i :: 0 <= i < |Groups(content, k)| ==> 0 < |Groups(content, k)[i]| <= k
    ensures forall i :: 0 <= i < |Groups(content, k)| - 1 ==> |Groups(content, k)[i]| == k
    decreases |content|
  {
    if |content| > k {
      GroupsPartition(content[k..], k);
      var gs := Groups(content, k);
      assert gs[1..] == Groups(content[k..], k);
      assert content == content[..k] + content[k..];
      forall i | 0 <= i < |gs| ensures 0 < |gs[i]| <= k {
        if i > 0 { assert gs[i] == Groups(content[k..], k)[i - 1]; }
      }
      forall i | 0 <= i < |gs| - 1 ensures |gs[i]| == k {
        if i > 0 { assert gs[i] == Groups(content[k..], k)[i - 1]; }
      }
    } else if content != [] {
      assert Groups(content, k) == [content];
      assert Concat([content]) == content + Concat([]);
    }
  }

  /** Each group with the header lines in front, joined back into text. */
  function Render(header: seq<string>, gs: seq<seq<string>>): (r: seq<string>)
    ensures |r| == |gs|
  {
    if gs == [] then [] else Render(header, gs[..|gs| - 1]) + [Join(header + gs[|gs| - 1], "\n")]
  }

  /** The chunk size the loop effectively uses: a size of 0 or less flushes after every line. */
  function EffectiveChunkSize(chunkSize: int): (k: nat)
    ensures k >= 1
  {
    if chunkSize >= 1 then chunkSize else 1
  }

  /** The chunks `chunk_large_diffs` makes of one diff. */
  function Chunks(diff: string, chunkSize: int): seq<string> {
    var lines := Lines(diff);
    if |lines| <= chunkSize then [diff]
    else
      var h := HeaderCount(lines);
      Render(lines[..h], Groups(lines[h..], EffectiveChunkSize(chunkSize)))
  }

  lemma GroupsStep(content: seq<string>, done: nat, k: nat)
    requires k >= 1 && done + k <= |content|
    ensures Groups(content[done..], k) == [content[done..done + k]] + Groups(content[done + k..], k)
  {
    var c := content[done..];
    assert c[k..] == content[done + k..] && c[..k] == content[done..done + k];
    if |c| == k {
      assert content[done + k..] == [];
      assert c == content[done..done + k];
    }
  }

  /** The body of `chunk_large_diffs` for one file. */
  method ChunkDiff(diff: string, chunkSize: int) returns (chunks: seq<string>)
    ensures chunks == Chunks(diff, chunkSize)
  {
    var diffLines := Lines(diff);
    if |diffLines| <= chunkSize {
      return [diff];
    }
    var header := HeaderLines(diffLines);
    var content := diffLines[|header|..];
    chunks := ChunkContent(header, content, chunkSize);
  }

  /** The header-collecting loop: the leading lines that look like diff header lines. */
  method HeaderLines(lines: seq<string>) returns (header: seq<string>)
    ensures |header| == HeaderCount(lines) && header == lines[..|header|]
  {
    header := [];
    var h := 0;
    while h < |lines| && IsHeaderLine(lines[h])
      invariant 0 <= h <= HeaderCount(lines)
      invariant header == lines[..h]
    {
      header := header + [lines[h]];
      h := h + 1;
    }
  }

  /** The content loop: a chunk is flushed whenever `chunk_size` lines have gathered, and the rest at the end. */
  method ChunkContent(header: seq<string>, content: seq<string>, chunkSize: int) returns (chunks: seq<string>)
    ensures chunks == Render(header, Groups(content, EffectiveChunkSize(chunkSize)))
  {
    var k := EffectiveChunkSize(chunkSize);
    chunks := [];
    var current: seq<string> := [];
    ghost var done := 0;
    ghost var gs: seq<seq<string>> := [];
    var j := 0;
    while j < |content|
      invariant 0 <= done <= j <= |content| && current == content[done..j] && |current| < k
      invariant Groups(content, k) == gs + Groups(content[done..], k)
      invariant chunks == Render(header, gs)
    {
      current := current + [content[j]];
      j := j + 1;
      if |current| >= chunkSize {
        assert current == content[done..done + k];
        FlushStep(header, content, k, gs, done);
        gs := gs + [current];
        chunks := chunks + [Join(header + current, "\n")];
        done := done + k;
        current := [];
      }
    }
    assert current == content[done..];
    LastFlush(header, content, k, gs, done);
    if current != [] {
      chunks := chunks + [Join(header + current, "\n")];
    }
  }

  /** Flushing a full run of `k` lines moves it from the pending content to the groups done. */
  lemma FlushStep(header: seq<string>, content: seq<string>, k: nat, gs: seq<seq<string>>, done: nat)
    requires k >= 1 && done + k <= |content|
    requires Groups(content, k) == gs + Groups(content[done..], k)
    ensures Groups(content, k) == (gs + [content[done..done + k]]) + Groups(content[done + k..], k)
    ensures Render(header, gs + [content[done..done + k]]) == Render(header, gs) + [Join(header + content[done..done + k], "\n")]
  {
    var g := content[done..done + k];
    GroupsStep(content, done, k);
    assert gs + [g] + Groups(content[done + k..], k) == gs + ([g] + Groups(content[done + k..], k));
    assert (gs + [g])[..|gs + [g]| - 1] == gs;
  }

  /** At the end, the pending lines (if any) are the last group. */
  lemma LastFlush(header: seq<string>, content: seq<string>, k: nat, gs: seq<seq<string>>, done: nat)
    requires k >= 1 && done <= |content| && |content| - done < k
    requires Groups(content, k) == gs + Groups(content[done..], k)
    ensures done < |content| ==> Render(header, Groups(content, k)) == Render(header, gs) + [Join(header + content[done..], "\n")]
    ensures done == |content| ==> Render(header, Groups(content, k)) == Render(header, gs)
  {
    var rest := content[done..];
    if rest != [] {
      assert Groups(rest, k) == [rest];
      assert (gs + [rest])[..|gs + [rest]| - 1] == gs;
    } else {
      assert gs + [] == gs;
    }
  }

  lemma {:induction false} RenderAt(header: seq<string>, gs: seq<seq<string>>, i: nat)
    requires i < |gs|
    ensures Render(header, gs)[i] == Join(header + gs[i], "\n")
    decreases |gs|
  {
    if i < |gs| - 1 {
      RenderAt(header, gs[..|gs| - 1], i);
    }
  }

  /**
   * A diff of at most `chunk_size` lines is kept whole; otherwise every
   * chunk is the header lines followed by a non-empty run of at most
   * `chunk_size` content lines, and those runs put back together are the
   * lines after the header.
   */
  lemma ChunksSpec(diff: string, chunkSize: int)
    ensures |Lines(diff)| <= chunkSize ==> Chunks(diff, chunkSize) == [diff]
    ensures |Lines(diff)| > chunkSize ==>
      var lines := Lines(diff);
      var h := HeaderCount(lines);
      var gs := Groups(lines[h..], EffectiveChunkSize(chunkSize));
      Concat(gs) == lines[h..] && |Chunks(diff, chunkSize)| == |gs| &&
      forall i :: 0 <= i < |gs| ==>
        0 < |gs[i]| <= EffectiveChunkSize(chunkSize) && Chunks(diff, chunkSize)[i] == Join(lines[..h] + gs[i], "\n")
  {
    var lines := Lines(diff);
    if |lines| > chunkSize {
      var h := HeaderCount(lines);
      var gs := Groups(lines[h..], EffectiveChunkSize(chunkSize));
      GroupsPartition(lines[h..], EffectiveChunkSize(chunkSize));
      forall i | 0 <= i < |gs| ensures Chunks(diff, chunkSize)[i] == Join(lines[..h] + gs[i], "\n") {
        RenderAt(lines[..h], gs, i);
      }
    }
  }

  /** `chunk_large_diffs`: one list of chunks per file, in map order. */
  method ChunkLargeDiffs(changes: Changes, chunkSize: int) returns (chunked: OrderedMap.Dict<string, seq<string>>)
    requires OrderedMap.UniqueKeys(changes)
    ensures |chunked| == |changes|
    ensures forall i :: 0 <= i < |changes| ==> chunked[i] == (changes[i].0, Chunks(changes[i].1.diff, chunkSize))
  {
    chunked := [];
    var i := 0;
    while i < |changes|
      invariant 0 <= i <= |changes|
      invariant |chunked| == i
      invariant OrderedMap.Keys(chunked) == OrderedMap.Keys(changes[..i])
      invariant forall j :: 0 <= j < i ==> chunked[j] == (changes[j].0, Chunks(changes[j].1.diff, chunkSize))
    {
      var (filename, change) := changes[i];
      var chunks := ChunkDiff(change.diff, chunkSize);
      OrderedMap.PutNext(changes, i, chunked, chunks);
      chunked := OrderedMap.Put(chunked, filename, chunks);
      i := i + 1;
    }
  }

  // ---------------------------------------------------------------------------
  // Review order

  const HighPriorityExtensions: seq<string> := [".py", ".js", ".ts", ".java", ".go", ".rs"]
  const MediumPriorityExtensions: seq<string> := [".jsx", ".tsx", ".cpp", ".c", ".cs"]
  const SecurityPatterns: seq<string> := ["*auth*", "*security*", "*password*", "*token*", "*key*"]
  const ConfigPatterns: seq<string> := ["*.config.*", "*.env*", "Dockerfile*", "*.yml", "*.yaml"]

  /** `calculate_priority`, with the score computed exactly. */
  function Priority(filename: string, c: FileChange): (score: real)
    ensures score >= Size(c) as real / 10.0
  {
    Size(c) as real / 10.0
    + (if Extension(filename) in HighPriorityExtensions then 100.0
       else if Extension(filename) in MediumPriorityExtensions then 50.0 else 0.0)
    + (if c.status == 'A' then 75.0 else 0.0)
    + (if MatchesAny(Lower(filename), SecurityPatterns) then 200.0 else 0.0)
    + (if MatchesAny(filename, ConfigPatterns) then 150.0 else 0.0)
  }

  function PriorityKey(e: (string, FileChange)): real {
    Priority(e.0, e.1)
  }

  /** `prioritize_files`: the filenames by descending score; equal scores keep map order. */
  function PrioritizeFiles(changes: Changes): seq<string> {
    Sorting.Project(Sorting.SortByDescending(changes, PriorityKey), NameOf)
  }

  /** The score of the file stored under `name`. */
  function ScoreOf(changes: Changes, name: string): real
    requires OrderedMap.HasKey(changes, name)
  {
    Priority(name, OrderedMap.Get(changes, name).value)
  }

  /** The review order is a permutation of the filenames with non-increasing scores. */
  lemma PrioritizeSpec(changes: Changes)
    requires OrderedMap.UniqueKeys(changes)
    ensures var r := PrioritizeFiles(changes);
      multiset(r) == multiset(OrderedMap.Keys(changes)) &&
      (forall i :: 0 <= i < |r| ==> OrderedMap.HasKey(changes, r[i])) &&
      forall i, j :: 0 <= i < j < |r| ==> ScoreOf(changes, r[i]) >= ScoreOf(changes, r[j])
  {
    var sorted := Sorting.SortByDescending(changes, PriorityKey);
    var r := PrioritizeFiles(changes);
    Sorting.SortByDescendingSpec(changes, PriorityKey);
    Sorting.ProjectSort(changes, Sorting.Negated(PriorityKey), NameOf);
    KeysAreNames(changes);
    forall i | 0 <= i < |r| ensures OrderedMap.HasKey(changes, r[i]) && ScoreOf(changes, r[i]) == PriorityKey(sorted[i]) {
      assert sorted[i] in multiset(changes);
      var k :| 0 <= k < |changes| && changes[k] == sorted[i];
      OrderedMap.GetMember(changes, k);
      assert OrderedMap.Keys(changes)[k] == r[i];
    }
  }

  /** A filename whose lower-cased form contains `key` gets the security bonus. */
  lemma KeyInNameIsSecuritySensitive(filename: string)
    requires Contains(Lower(filename), "key")
    ensures MatchesAny(Lower(filename), SecurityPatterns)
  {
    assert "*key*" == "*" + "key" + "*";
    StarLiteralStarMatchesContaining(Lower(filename), "key");
    assert Match(Lower(filename), SecurityPatterns[4]);
  }
}
