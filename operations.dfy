/**
 * The text-parsing side of the git integration: the refs a pre-push hook
 * receives on standard input, the name-status listing of a diff, and the
 * counting of added and removed lines.  Running git is not modelled: the
 * hook's input, the name-status text and the per-file diffs are inputs.
 */
module GitOperations {
  import opened Wrappers
  import opened Strings
  import OrderedMap
  import opened Exceptions

  /** One line of pre-push input: what is pushed and where to. */
  datatype GitRef = GitRef(localRef: string, localSha: string, remoteRef: string, remoteSha: string)

  /** One changed file.  `status` is A, M, D, R, C or whatever letter git printed. */
  datatype FileChange = FileChange(
    filename: string,
    status: char,
    linesAdded: nat,
    linesRemoved: nat,
    diff: string,
    oldFilename: Option<string>)

  /** `filename -> FileChange`, in the order git listed the files. */
  type Changes = OrderedMap.Dict<string, FileChange>

  const HeadsPrefix := "refs/heads/"

  /** `GitRef.branch_name`: the remote ref without a leading `refs/heads/`. */
  function BranchName(r: GitRef): (name: string)
    ensures StartsWith(r.remoteRef, HeadsPrefix) ==> HeadsPrefix + name == r.remoteRef
    ensures !StartsWith(r.remoteRef, HeadsPrefix) ==> name == r.remoteRef
  {
    if StartsWith(r.remoteRef, HeadsPrefix) then r.remoteRef[11..] else r.remoteRef
  }

  /** The local sha git sends for a ref being deleted. */
  const NullSha := "0000000000000000000000000000000000000000"

  /** The ref one input line describes, if the line is kept. */
  function RefOfLine(line: string): (r: Option<GitRef>)
    ensures r.Some? <==> line != [] && |SplitWhitespace(line)| == 4 && SplitWhitespace(line)[1] != NullSha
    ensures r.Some? ==> SplitWhitespace(line) == [r.value.localRef, r.value.localSha, r.value.remoteRef, r.value.remoteSha]
  {
    if line == [] then None
    else
      var parts := SplitWhitespace(line);
      if |parts| != 4 then None
      else if parts[1] == NullSha then None
      else Some(GitRef(parts[0], parts[1], parts[2], parts[3]))
  }

  function AsList<T>(o: Option<T>): (r: seq<T>)
    ensures |r| <= 1
  {
    if o.Some? then [o.value] else []
  }

  /** The values `parse` yields on `lines`, in line order. */
  function FilterMap<T>(lines: seq<string>, parse: string -> Option<T>): (r: seq<T>)
    ensures |r| <= |lines|
  {
    if lines == [] then []
    else AsList(parse(lines[0])) + FilterMap(lines[1..], parse)
  }

  /** The refs of the kept lines, in line order. */
  function KeptRefs(lines: seq<string>): (refs: seq<GitRef>)
    ensures |refs| <= |lines|
  {
    FilterMap(lines, RefOfLine)
  }

  /** Every kept ref comes from some line, and every well-formed, non-deleting line yields its ref. */
  lemma {:induction false} KeptRefsMembers(lines: seq<string>, r: GitRef)
    ensures r in KeptRefs(lines) <==> exists i :: 0 <= i < |lines| && RefOfLine(lines[i]) == Some(r)
  {
    if lines != [] {
      KeptRefsMembers(lines[1..], r);
      if r in KeptRefs(lines[1..]) {
        var i :| 0 <= i < |lines[1..]| && RefOfLine(lines[1..][i]) == Some(r);
        assert RefOfLine(lines[i + 1]) == Some(r);
      }
      if exists i :: 0 <= i < |lines| && RefOfLine(lines[i]) == Some(r) {
        var i :| 0 <= i < |lines| && RefOfLine(lines[i]) == Some(r);
        if i > 0 {
          assert RefOfLine(lines[1..][i - 1]) == Some(r);
        }
      }
    }
  }

  /** No kept ref is a deletion. */
  lemma {:induction false} KeptRefsAreNotDeletions(lines: seq<string>)
    ensures forall r :: r in KeptRefs(lines) ==> r.localSha != NullSha
  {
    forall r | r in KeptRefs(lines) ensures r.localSha != NullSha {
      KeptRefsMembers(lines, r);
    }
  }

  lemma {:induction false} FilterMapSnoc<T>(lines: seq<string>, line: string, parse: string -> Option<T>)
    ensures FilterMap(lines + [line], parse) == FilterMap(lines, parse) + AsList(parse(line))
  {
    if lines == [] {
      assert lines + [line] == [line];
    } else {
      assert (lines + [line])[1..] == lines[1..] + [line];
      FilterMapSnoc(lines[1..], line, parse);
    }
  }

  /** `parse_push_refs`: one `GitRef` per well-formed line of the hook's input. */
  method ParsePushRefs(input: string) returns (refs: seq<GitRef>)
    ensures refs == KeptRefs(Lines(Strip(input)))
  {
    var lines := Lines(Strip(input));
    refs := [];
    var i := 0;
    while i < |lines|
      invariant 0 <= i <= |lines|
      invariant refs == KeptRefs(lines[..i])
    {
      var line := lines[i];
      assert lines[..i + 1] == lines[..i] + [line];
      FilterMapSnoc(lines[..i], line, RefOfLine);
      i := i + 1;
      if line == [] {
        continue;
      }
      var parts := SplitWhitespace(line);
      if |parts| != 4 {
        continue;
      }
      if parts[1] == NullSha {
        continue;
      }
      refs := refs + [GitRef(parts[0], parts[1], parts[2], parts[3])];
    }
    assert lines[..i] == lines;
  }

  predicate IsAddedLine(line: string) {
    StartsWith(line, "+") && !StartsWith(line, "+++")
  }

  predicate IsRemovedLine(line: string) {
    StartsWith(line, "-") && !StartsWith(line, "---")
  }

  /** The number of lines satisfying `p`. */
  function CountLines(lines: seq<string>, p: string -> bool): (n: nat)
    ensures n <= |lines|
  {
    if lines == [] then 0 else (if p(lines[0]) then 1 else 0) + CountLines(lines[1..], p)
  }

  lemma {:induction false} CountLinesAppend(a: seq<string>, b: seq<string>, p: string -> bool)
    ensures CountLines(a + b, p) == CountLines(a, p) + CountLines(b, p)
  {
    if a == [] {
      assert a + b == b;
    } else {
      assert (a + b)[0] == a[0] && (a + b)[1..] == a[1..] + b;
      CountLinesAppend(a[1..], b, p);
    }
  }

  lemma AddedIsNotRemoved(line: string)
    ensures !(IsAddedLine(line) && IsRemovedLine(line))
  {
    if IsAddedLine(line) {
      assert line[0] == '+';
    }
  }

  /** Added and removed lines are disjoint classes, so together they never exceed the line count. */
  lemma {:induction false} AddedPlusRemovedBounded(lines: seq<string>)
    ensures CountLines(lines, IsAddedLine) + CountLines(lines, IsRemovedLine) <= |lines|
  {
    if lines != [] {
      AddedPlusRemovedBounded(lines[1..]);
      AddedIsNotRemoved(lines[0]);
    }
  }

  /** `_count_diff_lines`: hunk lines starting with `+` / `-`, file headers `+++` / `---` excluded. */
  method CountDiffLines(diff: string) returns (added: nat, removed: nat)
    ensures added == CountLines(Lines(diff), IsAddedLine)
    ensures removed == CountLines(Lines(diff), IsRemovedLine)
    ensures added + removed <= |Lines(diff)|
  {
    var lines := Lines(diff);
    added, removed := 0, 0;
    var i := 0;
    while i < |lines|
      invariant 0 <= i <= |lines|
      invariant added == CountLines(lines[..i], IsAddedLine)
      invariant removed == CountLines(lines[..i], IsRemovedLine)
    {
      CountLinesAppend(lines[..i], [lines[i]], IsAddedLine);
      CountLinesAppend(lines[..i], [lines[i]], IsRemovedLine);
      assert lines[..i + 1] == lines[..i] + [lines[i]];
      var line := lines[i];
      AddedIsNotRemoved(line);
      if StartsWith(line, "+") && !StartsWith(line, "+++") {
        added := added + 1;
      } else if StartsWith(line, "-") && !StartsWith(line, "---") {
        removed := removed + 1;
      }
      i := i + 1;
    }
    assert lines[..i] == lines;
    AddedPlusRemovedBounded(lines);
  }

  /**
   * The per-file diff git would print for `filename` (and the old name of a
   * rename); `None` stands for the `GitError` that makes the loop skip the file.
   */
  type DiffSource = (string, Option<string>) -> Option<string>

  /** What one line of `git diff --name-status` contributes. */
  datatype LineOutcome = Skip | Entry(change: FileChange) | Raise(error: Error)

  /** The file named by a name-status line, and the old name for a rename. */
  function NamesOf(parts: seq<string>): (r: (string, Option<string>))
    requires |parts| >= 2
    ensures StartsWith(parts[0], "R") && |parts| >= 3 ==> r == (parts[2], Some(parts[1]))
    ensures !(StartsWith(parts[0], "R") && |parts| >= 3) ==> r == (parts[1], None)
  {
    if StartsWith(parts[0], "R") && |parts| >= 3 then (parts[2], Some(parts[1])) else (parts[1], None)
  }

  function LineOutcomeOf(line: string, diffOf: DiffSource): (o: LineOutcome)
    ensures o.Entry? ==> Split(line, '\t')[0] != [] && o.change.status == Split(line, '\t')[0][0]
  {
    if Strip(line) == [] then Skip
    else
      var parts := Split(line, '\t');
      if |parts| < 2 then Skip
      else
        var (filename, oldName) := NamesOf(parts);
        match diffOf(filename, oldName)
        case None => Skip
        case Some(d) =>
          if parts[0] == [] then Raise(BuiltinError("IndexError", "string index out of range"))
          else Entry(FileChange(filename, parts[0][0], CountLines(Lines(d), IsAddedLine), CountLines(Lines(d), IsRemovedLine), d, oldName))
  }

  /** How each line of the listing is handled: `LineOutcomeOf` with the diff source fixed. */
  type LineParser = string -> LineOutcome

  function Outcomes(diffOf: DiffSource): LineParser {
    line => LineOutcomeOf(line, diffOf)
  }

  /** The changes collected from `lines` on top of `acc`, or the error that ends the loop. */
  function Collect(lines: seq<string>, parse: LineParser, acc: Changes): Result<Changes, Error> {
    if lines == [] then Ok(acc)
    else
      match parse(lines[0])
      case Skip => Collect(lines[1..], parse, acc)
      case Raise(e) => Err(e)
      case Entry(c) => Collect(lines[1..], parse, OrderedMap.Put(acc, c.filename, c))
  }

  /** The change the LAST line naming `name` produced, if any line did. */
  function LastEntry(lines: seq<string>, parse: LineParser, name: string): Option<FileChange> {
    if lines == [] then None
    else
      var o := parse(lines[|lines| - 1]);
      if o.Entry? && o.change.filename == name then Some(o.change) else LastEntry(lines[..|lines| - 1], parse, name)
  }

  /** No line of the listing raises. */
  predicate NoRaise(lines: seq<string>, parse: LineParser) {
    forall i :: 0 <= i < |lines| ==> !parse(lines[i]).Raise?
  }

  lemma {:induction false} LastEntrySnoc(lines: seq<string>, line: string, parse: LineParser, name: string)
    ensures LastEntry(lines + [line], parse, name) ==
      var o := parse(line);
      if o.Entry? && o.change.filename == name then Some(o.change) else LastEntry(lines, parse, name)
  {
    assert (lines + [line])[..|lines + [line]| - 1] == lines;
  }

  /**
   * When no line raises, the collected map holds, for every filename, the
   * change of the last line naming it (a later line overwrites an earlier
   * one; a file whose diff failed is absent); otherwise the first error
   * is reported.
   */
  lemma {:induction false} CollectSpec(done: seq<string>, lines: seq<string>, parse: LineParser, acc: Changes, name: string)
    requires NoRaise(lines, parse)
    requires OrderedMap.Get(acc, name) == LastEntry(done, parse, name)
    ensures Collect(lines, parse, acc).Ok?
    ensures OrderedMap.Get(Collect(lines, parse, acc).value, name) == LastEntry(done + lines, parse, name)
    decreases |lines|
  {
    if lines == [] {
      assert done + lines == done;
    } else {
      assert NoRaise(lines[1..], parse) by {
        forall i | 0 <= i < |lines[1..]| ensures !parse(lines[1..][i]).Raise? {
          assert lines[1..][i] == lines[i + 1];
        }
      }
      assert !parse(lines[0]).Raise?;
      LastEntrySnoc(done, lines[0], parse, name);
      assert (done + [lines[0]]) + lines[1..] == done + lines;
      match parse(lines[0])
      case Skip =>
        CollectSpec(done + [lines[0]], lines[1..], parse, acc, name);
      case Entry(c) =>
        var acc' := OrderedMap.Put(acc, c.filename, c);
        OrderedMap.PutGet(acc, c.filename, c, name);
        CollectSpec(done + [lines[0]], lines[1..], parse, acc', name);
    }
  }

  /** The end-to-end statement for the whole listing, starting from `{}`. */
  lemma CollectFromEmpty(lines: seq<string>, parse: LineParser, name: string)
    requires NoRaise(lines, parse)
    ensures Collect(lines, parse, []).Ok?
    ensures OrderedMap.Get(Collect(lines, parse, []).value, name) == LastEntry(lines, parse, name)
  {
    CollectSpec([], lines, parse, [], name);
    assert [] + lines == lines;
  }

  /** Every entry is stored under its own filename. */
  predicate Filed(m: Changes) {
    forall i :: 0 <= i < |m| ==> m[i].0 == m[i].1.filename
  }

  /** Each stored change is filed under its own filename. */
  lemma {:induction false} CollectKeysAreFilenames(lines: seq<string>, parse: LineParser, acc: Changes)
    requires Filed(acc)
    ensures Collect(lines, parse, acc).Ok? ==> Filed(Collect(lines, parse, acc).value)
    decreases |lines|
  {
    if lines != [] {
      match parse(lines[0])
      case Skip =>
        assert Collect(lines, parse, acc) == Collect(lines[1..], parse, acc);
        CollectKeysAreFilenames(lines[1..], parse, acc);
      case Raise(_) =>
      case Entry(c) =>
        var acc' := OrderedMap.Put(acc, c.filename, c);
        PutKeepsFiling(acc, c);
        CollectKeysAreFilenames(lines[1..], parse, acc');
    }
  }

  lemma {:induction false} PutKeepsFiling(acc: Changes, c: FileChange)
    requires Filed(acc)
    ensures Filed(OrderedMap.Put(acc, c.filename, c))
  {
    if acc != [] && acc[0].0 != c.filename {
      assert forall i :: 0 <= i < |acc[1..]| ==> acc[1..][i] == acc[i + 1];
      PutKeepsFiling(acc[1..], c);
      var r := OrderedMap.Put(acc, c.filename, c);
      assert r == [acc[0]] + OrderedMap.Put(acc[1..], c.filename, c);
      forall i | 0 <= i < |r| ensures r[i].0 == r[i].1.filename {
        if i > 0 {
          assert r[i] == OrderedMap.Put(acc[1..], c.filename, c)[i - 1];
        }
      }
    } else if acc != [] {
      var r := OrderedMap.Put(acc, c.filename, c);
      forall i | 0 <= i < |r| ensures r[i].0 == r[i].1.filename {
        if i > 0 {
          assert r[i] == acc[i];
        }
      }
    }
  }

  /**
   * The name-status loop of `_get_diff_between_refs`: the `changes` dict
   * is filled line by line; an empty status field raises `IndexError` out of
   * the loop, as `status[0]` does.
   */
  method ParseNameStatus(nameStatus: string, diffOf: DiffSource) returns (r: Result<Changes, Error>)
    ensures r == Collect(Lines(nameStatus), Outcomes(diffOf), [])
  {
    var lines := Lines(nameStatus);
    var changes: Changes := [];
    var i := 0;
    while i < |lines|
      invariant 0 <= i <= |lines|
      invariant Collect(lines[i..], Outcomes(diffOf), changes) == Collect(lines, Outcomes(diffOf), [])
    {
      assert lines[i..][1..] == lines[i + 1..];
      var line := lines[i];
      i := i + 1;
      if Strip(line) == [] {
        continue;
      }
      var parts := Split(line, '\t');
      if |parts| < 2 {
        continue;
      }
      var status := parts[0];
      var filename := parts[1];
      var oldFilename: Option<string> := None;
      if StartsWith(status, "R") && |parts| >= 3 {
        oldFilename := Some(filename);
        filename := parts[2];
      }
      var fileDiff := diffOf(filename, oldFilename);
      if fileDiff.None? {
        continue;
      }
      var added, removed := CountDiffLines(fileDiff.value);
      if status == [] {
        return Err(BuiltinError("IndexError", "string index out of range"));
      }
      changes := OrderedMap.Put(changes, filename, FileChange(filename, status[0], added, removed, fileDiff.value, oldFilename));
    }
    r := Ok(changes);
  }
}
