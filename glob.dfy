/**
 * Shell-style filename patterns as `fnmatch.fnmatch` applies them on POSIX
 * (case-sensitive), and the file suffix as `pathlib.PurePath.suffix` computes it.
 */
module Glob {
  import opened Strings

  /**
   * `fnmatch.fnmatch(name, pattern)`: `*` matches any run of characters,
   * `/` included, `?` matches exactly one character, every other
   * character matches itself.
   */
  predicate Match(name: string, pattern: string)
    decreases |name| + |pattern|
  {
    if pattern == [] then name == []
    else if pattern[0] == '*' then Match(name, pattern[1..]) || (name != [] && Match(name[1..], pattern))
    else name != [] && (pattern[0] == '?' || pattern[0] == name[0]) && Match(name[1..], pattern[1..])
  }

  /** `fnmatch.fnmatch(name, pattern)` as a test on patterns. */
  function Matcher(name: string): string -> bool {
    pattern => Match(name, pattern)
  }

  /** A pattern with no wildcard character. */
  predicate Literal(pattern: string) {
    '*' !in pattern && '?' !in pattern
  }

  /** True when some pattern in the list matches `name` (the `for pattern ...: if fnmatch: return True` loops). */
  predicate MatchesAny(name: string, patterns: seq<string>) {
    exists i :: 0 <= i < |patterns| && Match(name, patterns[i])
  }

  /** `*` matches every name. */
  lemma {:induction false} StarMatchesAll(name: string)
    ensures Match(name, "*")
    decreases |name|
  {
    if name != [] {
      StarMatchesAll(name[1..]);
    }
  }

  /** A pattern without wildcards matches exactly the name equal to it. */
  lemma {:induction false} LiteralMatchIsEquality(name: string, pattern: string)
    requires Literal(pattern)
    ensures Match(name, pattern) <==> name == pattern
    decreases |pattern|
  {
    if pattern != [] {
      assert pattern[0] != '*' && pattern[0] != '?';
      assert Literal(pattern[1..]) by {
        assert forall c :: c in pattern[1..] ==> c in pattern;
      }
      if name != [] {
        LiteralMatchIsEquality(name[1..], pattern[1..]);
        if name == pattern {
        } else if name[0] == pattern[0] {
          assert name == [name[0]] + name[1..] && pattern == [pattern[0]] + pattern[1..];
        }
      }
    }
  }

  /** `*lit*` with a wildcard-free `lit` matches every name that contains `lit`. */
  lemma {:induction false} StarLiteralStarMatchesContaining(name: string, lit: string)
    requires Literal(lit)
    requires Contains(name, lit)
    ensures Match(name, "*" + lit + "*")
    decreases |name|
  {
    var p := "*" + lit + "*";
    assert p[1..] == lit + "*";
    if lit <= name {
      LiteralThenStar(name, lit);
    } else {
      StarLiteralStarMatchesContaining(name[1..], lit);
    }
  }

  lemma {:induction false} LiteralThenStar(name: string, lit: string)
    requires Literal(lit) && lit <= name
    ensures Match(name, lit + "*")
    decreases |lit|
  {
    if lit == [] {
      assert lit + "*" == "*";
      StarMatchesAll(name);
    } else {
      assert lit[0] != '*' && lit[0] != '?';
      assert Literal(lit[1..]) by {
        assert forall c :: c in lit[1..] ==> c in lit;
      }
      assert (lit + "*")[1..] == lit[1..] + "*";
      LiteralThenStar(name[1..], lit[1..]);
    }
  }

  /** `PurePath(path).name`: the text after the last `/`. */
  function BaseName(path: string): (r: string)
    ensures '/' !in r
  {
    var i := RFind(path, '/');
    path[i + 1..]
  }

  /**
   * `PurePath(path).suffix`: from the last `.` of the final component,
   * provided that dot is neither its first nor its last character; else "".
   */
  function Suffix(path: string): (r: string)
    ensures r == [] || (r[0] == '.' && |r| >= 2 && '/' !in r && '.' !in r[1..])
  {
    var name := BaseName(path);
    var i := RFind(name, '.');
    if 0 < i < |name| - 1 then name[i..] else ""
  }

  /** The name is a tail of the path. */
  lemma BaseNameIsTail(path: string)
    ensures |BaseName(path)| <= |path| && BaseName(path) == path[|path| - |BaseName(path)|..]
  {
  }

  /** The suffix is a tail of the name. */
  lemma SuffixIsTail(path: string)
    ensures |Suffix(path)| <= |BaseName(path)|
    ensures Suffix(path) == BaseName(path)[|BaseName(path)| - |Suffix(path)|..]
  {
  }
}
