/**
 * `ConfigManager`: the layered configuration (package defaults, then the
 * global and the project YAML file, then `AI_CODE_REVIEW_*` environment
 * variables), read and written with dotted keys such as `bedrock.model`.
 * Reading the files and the environment is not modelled: their decoded
 * contents are inputs.
 */
module Config {
  import opened Wrappers
  import opened Strings
  import opened Json
  import opened Exceptions
  import Glob
  import OrderedMap

  /** The top-level mapping `self._config`. */
  type ConfigDict = OrderedMap.Dict<string, Value>

  function Strs(names: seq<string>): seq<Value> {
    seq(|names|, i requires 0 <= i < |names| => Str(names[i]))
  }

  /** `_load_default_config()`: the package defaults. */
  const DefaultConfig: ConfigDict := [
    ("bedrock", Obj([
      ("region", Str("us-east-1")),
      ("profile", Null),
      ("model", Str("anthropic.claude-3-5-sonnet-20241022-v2:0")),
      ("max_tokens", Int(4000)),
      ("temperature", Float(0.1)),
      ("timeout", Int(30)),
      ("retry_attempts", Int(3)),
      ("retry_delay", Int(1))])),
    ("git", Obj([
      ("default_compare_branch", Str("main")),
      ("max_diff_size", Int(10000)),
      ("max_files", Int(50)),
      ("exclude_patterns", Arr(Strs(["*.min.js", "*.min.css", "package-lock.json", "yarn.lock",
        "*.generated.*", "dist/*", "build/*", "node_modules/*"]))),
      ("include_patterns", Arr([])),
      ("binary_file_extensions", Arr(Strs([".jpg", ".jpeg", ".png", ".gif", ".bmp", ".tiff",
        ".pdf", ".doc", ".docx", ".xls", ".xlsx", ".ppt", ".pptx",
        ".zip", ".tar", ".gz", ".rar", ".7z",
        ".exe", ".dll", ".so", ".dylib"])))])),
    ("review", Obj([
      ("enabled_rules", Arr(Strs(["security", "performance", "maintainability", "style", "documentation"]))),
      ("severity_threshold", Str("warning")),
      ("max_issues_per_file", Int(10)),
      ("context_lines", Int(3)),
      ("batch_size", Int(5)),
      ("rule_templates", Obj([
        ("*.py", Arr(Strs(["python", "general"]))),
        ("*.js", Arr(Strs(["javascript", "general"]))),
        ("*.ts", Arr(Strs(["typescript", "general"]))),
        ("*.jsx", Arr(Strs(["react", "javascript", "general"]))),
        ("*.tsx", Arr(Strs(["react", "typescript", "general"]))),
        ("*.java", Arr(Strs(["java", "general"]))),
        ("*.go", Arr(Strs(["golang", "general"]))),
        ("*", Arr(Strs(["general"])))]))])),
    ("ui", Obj([
      ("interactive_mode", Bool(true)),
      ("color_output", Bool(true)),
      ("show_diff_context", Bool(true)),
      ("show_progress", Bool(true)),
      ("max_display_issues", Int(20)),
      ("summary_only", Bool(false)),
      ("auto_approve_threshold", Null)])),
    ("logging", Obj([
      ("level", Str("INFO")),
      ("file", Null),
      ("max_file_size", Str("10MB")),
      ("backup_count", Int(3)),
      ("format", Str("%(asctime)s - %(name)s - %(levelname)s - %(message)s"))])),
    ("performance", Obj([
      ("cache_enabled", Bool(true)),
      ("cache_ttl", Int(3600)),
      ("parallel_processing", Bool(true)),
      ("max_workers", Int(4))]))
  ]

  // ---------------------------------------------------------------------------
  // Dotted keys

  /**
   * The value a path of keys leads to: `value = value[k]` for each key.
   * `None` when a key is missing (`KeyError`) or the walk meets a value
   * that is not a mapping (`TypeError`); `get` turns both into the default.
   */
  function Lookup(v: Value, path: seq<string>): Option<Value>
    decreases |path|
  {
    if path == [] then Some(v)
    else match v
      case Obj(fields) =>
        (match OrderedMap.Get(fields, path[0])
         case None => None
         case Some(child) => Lookup(child, path[1..]))
      case _ => None
  }

  /** What `get(key, default)` returns for a configuration. */
  function GetValue(config: ConfigDict, key: string, default: Value): Value {
    Lookup(Obj(config), Split(key, '.')).GetOr(default)
  }

  /**
   * The mapping `set` descends into under key `k` of mapping `m`: the
   * existing mapping, a fresh `{}` when `k` is missing, or `None` when the
   * value there is not a mapping (every operation on it raises `TypeError`).
   */
  function Child(m: ConfigDict, k: string): Option<ConfigDict> {
    var o: Option<Value> := OrderedMap.Get(m, k);
    match o
    case None => Some([])
    case Some(Obj(f)) => Some(f)
    case Some(_) => None
  }

  /**
   * The `TypeError` `set` raises at a value `c` that is not a mapping, with
   * `k` the next key: `config[k] = value` when `k` is the last key, otherwise
   * `k in config` followed by `config[k]` or `config[k] = {}`.
   */
  function SetError(c: Value, k: string, last: bool): (e: Error)
    requires !c.Obj?
    ensures e.BuiltinError? && e.kind == "TypeError"
    ensures c.Arr? ==> e.msg == "list indices must be integers or slices, not str"
    ensures c.Str? ==> e.msg == if !last && Contains(c.s, k) then "string indices must be integers, not 'str'" else "'str' object does not support item assignment"
    ensures !c.Arr? && !c.Str? && last ==> e.msg == "'" + PyType(c) + "' object does not support item assignment"
    ensures !c.Arr? && !c.Str? && !last ==> e.msg == "argument of type '" + PyType(c) + "' is not iterable"
  {
    var msg :=
      match c
      case Str(s) =>
        if !last && Contains(s, k) then "string indices must be integers, not 'str'" else "'str' object does not support item assignment"
      case Arr(_) => "list indices must be integers or slices, not str"
      case _ =>
        if last then "'" + PyType(c) + "' object does not support item assignment" else "argument of type '" + PyType(c) + "' is not iterable";
    BuiltinError("TypeError", msg)
  }

  /** The mapping after `set` with the split key `path`, or the error it raises. */
  function SetPath(m: ConfigDict, path: seq<string>, v: Value): Result<ConfigDict, Error>
    requires |path| >= 1
    decreases |path|
  {
    if |path| == 1 then Ok(OrderedMap.Put(m, path[0], v))
    else match Child(m, path[0])
      case None => Err(SetError(OrderedMap.Get(m, path[0]).value, path[1], |path| == 2))
      case Some(f) =>
        match SetPath(f, path[1..], v)
        case Ok(f') => Ok(OrderedMap.Put(m, path[0], Obj(f')))
        case Err(e) => Err(e)
  }

  /**
   * `set` raises only `TypeError`, at the first proper prefix of the key path
   * that leads to a value other than a mapping, with the message Python gives
   * for that value and the next key.
   */
  lemma {:induction false} SetPathError(m: ConfigDict, path: seq<string>, v: Value)
    requires |path| >= 1
    ensures SetPath(m, path, v).Err? ==> SetPath(m, path, v).error.BuiltinError? && SetPath(m, path, v).error.kind == "TypeError"
    ensures SetPath(m, path, v).Err? ==>
      exists i :: FirstBlock(Obj(m), path, i)
        && SetPath(m, path, v).error == SetError(Lookup(Obj(m), path[..i]).value, path[i], i == |path| - 1)
    decreases |path|
  {
    if |path| > 1 {
      var rest := path[1..];
      LookupFirst(m, path);
      match OrderedMap.Get(m, path[0])
      case None =>
        SetNeverFailsOnFresh(rest, v);
      case Some(c) =>
        if !c.Obj? {
          assert FirstBlock(Obj(m), path, 1);
        } else {
          SetPathError(c.fields, rest, v);
          if SetPath(m, path, v).Err? {
            var i :| FirstBlock(c, rest, i)
              && SetPath(c.fields, rest, v).error == SetError(Lookup(c, rest[..i]).value, rest[i], i == |rest| - 1);
            FirstBlockLifts(m, path, c, i);
          }
        }
    }
  }

  /** One level of `set`: the mapping gets the updated child under the first key. */
  lemma SetPathStep(m: ConfigDict, path: seq<string>, v: Value)
    requires |path| >= 2 && SetPath(m, path, v).Ok?
    ensures Child(m, path[0]).Some? && SetPath(Child(m, path[0]).value, path[1..], v).Ok?
    ensures SetPath(m, path, v).value == OrderedMap.Put(m, path[0], Obj(SetPath(Child(m, path[0]).value, path[1..], v).value))
  {
  }

  /** One level of a lookup. */
  lemma LookupStep(m: ConfigDict, q: seq<string>)
    requires |q| >= 1
    ensures Lookup(Obj(m), q) == match OrderedMap.Get(m, q[0]) case None => None case Some(c) => Lookup(c, q[1..])
  {
  }

  /** After a successful `set(key, v)`, `get(key)` returns `v`. */
  lemma {:induction false} SetThenLookup(m: ConfigDict, path: seq<string>, v: Value)
    requires |path| >= 1 && SetPath(m, path, v).Ok?
    ensures Lookup(Obj(SetPath(m, path, v).value), path) == Some(v)
    decreases |path|
  {
    var m' := SetPath(m, path, v).value;
    LookupStep(m', path);
    if |path| == 1 {
      OrderedMap.PutGet(m, path[0], v, path[0]);
    } else {
      SetPathStep(m, path, v);
      var f := Child(m, path[0]).value;
      OrderedMap.PutGet(m, path[0], Obj(SetPath(f, path[1..], v).value), path[0]);
      SetThenLookup(f, path[1..], v);
    }
  }

  /** A path that leaves the set path at key `i` reads the same before and after `set`. */
  lemma {:induction false} SetKeepsOtherPaths(m: ConfigDict, path: seq<string>, v: Value, q: seq<string>, i: nat)
    requires |path| >= 1 && SetPath(m, path, v).Ok?
    requires i < |path| && i < |q| && q[..i] == path[..i] && q[i] != path[i]
    ensures Lookup(Obj(SetPath(m, path, v).value), q) == Lookup(Obj(m), q)
    decreases |path|
  {
    var m' := SetPath(m, path, v).value;
    LookupStep(m', q);
    LookupStep(m, q);
    if i == 0 {
      if |path| == 1 {
        OrderedMap.PutGet(m, path[0], v, q[0]);
      } else {
        SetPathStep(m, path, v);
        OrderedMap.PutGet(m, path[0], Obj(SetPath(Child(m, path[0]).value, path[1..], v).value), q[0]);
      }
    } else {
      assert q[0] == path[0] by { assert q[..i][0] == path[..i][0]; }
      SetPathStep(m, path, v);
      var f := Child(m, path[0]).value;
      var f' := SetPath(f, path[1..], v).value;
      OrderedMap.PutGet(m, path[0], Obj(f'), q[0]);
      assert q[1..][..i - 1] == path[1..][..i - 1] by {
        assert q[1..][..i - 1] == q[..i][1..] && path[1..][..i - 1] == path[..i][1..];
      }
      SetKeepsOtherPaths(f, path[1..], v, q[1..], i - 1);
      if OrderedMap.Get(m, path[0]).None? {
        LookupStep(f, q[1..]);
      }
    }
  }

  /**
   * `set` fails exactly when some proper prefix of the key path already
   * leads to a value that is not a mapping.
   */
  lemma {:induction false} SetFailsIff(m: ConfigDict, path: seq<string>, v: Value)
    requires |path| >= 1
    ensures SetPath(m, path, v).Err? <==> Blocked(Obj(m), path)
    decreases |path|
  {
    if |path| > 1 {
      var rest := path[1..];
      LookupFirst(m, path);
      match OrderedMap.Get(m, path[0])
      case None =>
        NothingBelowMissing(m, path);
        SetNeverFailsOnFresh(rest, v);
      case Some(c) =>
        if c.Obj? {
          SetFailsIff(c.fields, rest, v);
          BlockedBelow(m, path, c);
        } else {
          assert BlocksAt(Obj(m), path, 1);
        }
    }
  }

  /** The first blocking prefix below a mapping under the first key is, one key longer, the first blocking prefix from the top. */
  lemma FirstBlockLifts(m: ConfigDict, path: seq<string>, c: Value, i: int)
    requires |path| >= 2 && OrderedMap.Get(m, path[0]) == Some(c) && c.Obj?
    requires FirstBlock(c, path[1..], i)
    ensures FirstBlock(Obj(m), path, i + 1)
    ensures Lookup(Obj(m), path[..i + 1]) == Lookup(c, path[1..][..i])
  {
    LookupFirst(m, path);
    LookupPrefix(m, path, c, i + 1);
    forall j | 1 <= j < i + 1
      ensures !BlocksAt(Obj(m), path, j)
    {
      if j >= 2 {
        LookupPrefix(m, path, c, j);
        assert !BlocksAt(c, path[1..], j - 1);
      }
    }
  }

  /** Some proper prefix of `path` leads from `v` to a value that is not a mapping. */
  ghost predicate Blocked(v: Value, path: seq<string>) {
    exists i :: BlocksAt(v, path, i)
  }

  /** The prefix of `path` of length `i` (a proper, non-empty one) leads from `v` to a value that is not a mapping. */
  predicate BlocksAt(v: Value, path: seq<string>, i: int) {
    1 <= i < |path| && Lookup(v, path[..i]).Some? && !Lookup(v, path[..i]).value.Obj?
  }

  /** `i` is the shortest prefix of `path` that blocks. */
  predicate FirstBlock(v: Value, path: seq<string>, i: int) {
    BlocksAt(v, path, i) && forall j :: 1 <= j < i ==> !BlocksAt(v, path, j)
  }

  /** The one-key prefix of a path reads the first key. */
  lemma LookupFirst(m: ConfigDict, path: seq<string>)
    requires |path| >= 1
    ensures Lookup(Obj(m), path[..1]) == OrderedMap.Get(m, path[0])
  {
    assert path[..1][1..] == [];
  }

  /** Longer prefixes read on below the first key. */
  lemma LookupPrefix(m: ConfigDict, path: seq<string>, c: Value, i: nat)
    requires 2 <= i <= |path| && OrderedMap.Get(m, path[0]) == Some(c)
    ensures Lookup(Obj(m), path[..i]) == Lookup(c, path[1..][..i - 1])
  {
    assert path[..i][1..] == path[1..][..i - 1];
  }

  /** Below a mapping under the first key, the path is blocked iff the rest is blocked there. */
  lemma BlockedBelow(m: ConfigDict, path: seq<string>, c: Value)
    requires |path| >= 2 && OrderedMap.Get(m, path[0]) == Some(c) && c.Obj?
    ensures Blocked(Obj(m), path) <==> Blocked(c, path[1..])
  {
    if Blocked(c, path[1..]) {
      BlockedLifts(m, path, c);
    }
    if Blocked(Obj(m), path) {
      BlockedDrops(m, path, c);
    }
  }

  lemma BlockedLifts(m: ConfigDict, path: seq<string>, c: Value)
    requires |path| >= 2 && OrderedMap.Get(m, path[0]) == Some(c)
    requires Blocked(c, path[1..])
    ensures Blocked(Obj(m), path)
  {
    var rest := path[1..];
    var j :| BlocksAt(c, rest, j);
    LookupPrefix(m, path, c, j + 1);
    assert BlocksAt(Obj(m), path, j + 1);
  }

  lemma BlockedDrops(m: ConfigDict, path: seq<string>, c: Value)
    requires |path| >= 2 && OrderedMap.Get(m, path[0]) == Some(c) && c.Obj?
    requires Blocked(Obj(m), path)
    ensures Blocked(c, path[1..])
  {
    var i :| BlocksAt(Obj(m), path, i);
    LookupFirst(m, path);
    LookupPrefix(m, path, c, i);
    assert BlocksAt(c, path[1..], i - 1);
  }

  /** Below a missing key every proper prefix of the path is missing too. */
  lemma NothingBelowMissing(m: ConfigDict, path: seq<string>)
    requires |path| >= 1 && OrderedMap.Get(m, path[0]).None?
    ensures forall i :: 1 <= i <= |path| ==> Lookup(Obj(m), path[..i]).None?
  {
    forall i | 1 <= i <= |path| ensures Lookup(Obj(m), path[..i]).None? {
      assert path[..i][0] == path[0];
    }
  }

  /** `set` below a freshly created `{}` always succeeds. */
  lemma {:induction false} SetNeverFailsOnFresh(path: seq<string>, v: Value)
    requires |path| >= 1
    ensures SetPath([], path, v).Ok?
    decreases |path|
  {
    if |path| > 1 {
      SetNeverFailsOnFresh(path[1..], v);
    }
  }

  // ---------------------------------------------------------------------------
  // Deep merge

  /**
   * `_deep_merge(base, update)` from the `i`-th entry of `update` on: each
   * entry is merged into `base` in order, recursing when both sides hold a
   * mapping and otherwise assigning the update's value.
   */
  function MergeFrom(base: ConfigDict, update: ConfigDict, i: nat): ConfigDict
    requires i <= |update|
    decreases Obj(update), |update| - i
  {
    if i == |update| then base
    else
      assert update[i] in update;
      MergeFrom(OrderedMap.Put(base, update[i].0, Merged(OrderedMap.Get(base, update[i].0), update[i].1)), update, i + 1)
  }

  /** The value a key ends up with when the base holds `prior` under it and the update brings `incoming`. */
  function Merged(prior: Option<Value>, incoming: Value): Value
    decreases incoming, if incoming.Obj? then |incoming.fields| + 1 else 0
  {
    if prior.Some? && prior.value.Obj? && incoming.Obj? then Obj(MergeFrom(prior.value.fields, incoming.fields, 0)) else incoming
  }

  function DeepMerge(base: ConfigDict, update: ConfigDict): ConfigDict {
    MergeFrom(base, update, 0)
  }

  /**
   * After the merge, a key the update does not hold keeps its base value,
   * and a key it holds gets the merge of the two values.
   */
  lemma {:induction false} MergeFromGet(base: ConfigDict, update: ConfigDict, i: nat, k: string)
    requires i <= |update| && OrderedMap.UniqueKeys(update)
    ensures OrderedMap.Get(MergeFrom(base, update, i), k) ==
      match OrderedMap.Get(update[i..], k)
      case None => OrderedMap.Get(base, k)
      case Some(v) => Some(Merged(OrderedMap.Get(base, k), v))
    decreases |update| - i
  {
    if i < |update| {
      var k0 := update[i].0;
      var base' := OrderedMap.Put(base, k0, Merged(OrderedMap.Get(base, k0), update[i].1));
      MergeFromGet(base', update, i + 1, k);
      OrderedMap.PutGet(base, k0, Merged(OrderedMap.Get(base, k0), update[i].1), k);
      assert update[i..][1..] == update[i + 1..];
      if k == k0 {
        var rest := update[i + 1..];
        assert !OrderedMap.HasKey(rest, k) by {
          forall j | 0 <= j < |rest| ensures OrderedMap.Keys(rest)[j] != k {
            assert rest[j] == update[i + 1 + j];
          }
        }
      }
    }
  }

  lemma MergeGet(base: ConfigDict, update: ConfigDict, k: string)
    requires OrderedMap.UniqueKeys(update)
    ensures OrderedMap.Get(DeepMerge(base, update), k) ==
      match OrderedMap.Get(update, k)
      case None => OrderedMap.Get(base, k)
      case Some(v) => Some(Merged(OrderedMap.Get(base, k), v))
  {
    MergeFromGet(base, update, 0, k);
    assert update[0..] == update;
  }

  /** Merging never duplicates a key of the base. */
  lemma {:induction false} MergeFromUnique(base: ConfigDict, update: ConfigDict, i: nat)
    requires i <= |update| && OrderedMap.UniqueKeys(base)
    ensures OrderedMap.UniqueKeys(MergeFrom(base, update, i))
    decreases |update| - i
  {
    if i < |update| {
      var k0 := update[i].0;
      var v := Merged(OrderedMap.Get(base, k0), update[i].1);
      OrderedMap.PutUnique(base, k0, v);
      MergeFromUnique(OrderedMap.Put(base, k0, v), update, i + 1);
    }
  }

  /** `_merge_config(new)`: nothing for an empty update, a deep merge for a mapping, `AttributeError` for anything else. */
  function MergeConfig(config: ConfigDict, update: Value): (r: Result<ConfigDict, Error>)
    ensures !Truthy(update) ==> r == Ok(config)
    ensures r.Err? <==> Truthy(update) && !update.Obj?
    ensures r.Err? ==> r.error == NoAttribute(PyType(update), "items")
  {
    if !Truthy(update) then Ok(config)
    else if update.Obj? then Ok(DeepMerge(config, update.fields))
    else Err(NoAttribute(PyType(update), "items"))
  }

  // ---------------------------------------------------------------------------
  // Rule templates for a file

  /** The template names one `rule_templates` value contributes: a string, or the strings of a list. */
  function TemplatesOf(v: Value): (r: seq<string>)
    ensures v.Str? ==> r == [v.s]
    ensures !v.Str? && !v.Arr? ==> r == []
  {
    match v
    case Str(s) => [s]
    case Arr(items) => StringItems(items)
    case _ => []
  }

  /** The string items of a list, in order. */
  function StringItems(items: seq<Value>): (r: seq<string>)
    ensures forall x :: x in r <==> Str(x) in items
  {
    if items == [] then []
    else
      var init := StringItems(items[..|items| - 1]);
      assert items == items[..|items| - 1] + [items[|items| - 1]];
      match items[|items| - 1]
      case Str(s) => init + [s]
      case _ => init
  }

  /** Entry `e` of `rule_templates` has a matching pattern and lists template `t`. */
  predicate Selects(matches: string -> bool, e: (string, Value), t: string) {
    matches(e.0) && t in TemplatesOf(e.1)
  }

  /** The templates of every pattern that `matches`, in mapping order, duplicates kept. */
  function Applicable(entries: ConfigDict, matches: string -> bool): seq<string> {
    if entries == [] then []
    else
      var last := entries[|entries| - 1];
      Applicable(entries[..|entries| - 1], matches) + (if matches(last.0) then TemplatesOf(last.1) else [])
  }

  /** A template applies exactly when some matching pattern lists it. */
  lemma {:induction false} ApplicableMembers(entries: ConfigDict, matches: string -> bool, t: string)
    ensures t in Applicable(entries, matches) <==> exists i :: 0 <= i < |entries| && Selects(matches, entries[i], t)
  {
    if entries != [] {
      var n := |entries| - 1;
      var init := entries[..n];
      ApplicableMembers(init, matches, t);
      assert forall i :: 0 <= i < n ==> init[i] == entries[i];
      if t in Applicable(entries, matches) && t !in Applicable(init, matches) {
        assert Selects(matches, entries[n], t);
      }
    }
  }

  /** The order-preserving de-duplication: each name at its first occurrence. */
  function Dedup(s: seq<string>): (r: seq<string>)
    ensures forall x :: x in r <==> x in s
    ensures forall i, j :: 0 <= i < j < |r| ==> r[i] != r[j]
  {
    if s == [] then []
    else
      var init := Dedup(s[..|s| - 1]);
      assert s == s[..|s| - 1] + [s[|s| - 1]];
      if s[|s| - 1] in s[..|s| - 1] then init else init + [s[|s| - 1]]
  }

  /** The position of the first occurrence of `x` in `s`. */
  function FirstIndex(s: seq<string>, x: string): (k: nat)
    requires x in s
    ensures k < |s| && s[k] == x && x !in s[..k]
  {
    if s[0] == x then 0 else 1 + FirstIndex(s[1..], x)
  }

  /** The first occurrence of `x` in a prefix of `s` is its first occurrence in `s`. */
  lemma FirstIndexPrefix(s: seq<string>, m: nat, x: string)
    requires m <= |s| && x in s[..m]
    ensures FirstIndex(s, x) == FirstIndex(s[..m], x)
  {
    var a := FirstIndex(s, x);
    var b := FirstIndex(s[..m], x);
    assert s[..m][b] == s[b];
  }

  /** De-duplication keeps the names in the order of their first occurrences. */
  lemma {:induction false} DedupOrder(s: seq<string>)
    ensures forall i, j :: 0 <= i < j < |Dedup(s)| ==> FirstIndex(s, Dedup(s)[i]) < FirstIndex(s, Dedup(s)[j])
  {
    if s != [] {
      var n := |s| - 1;
      var init := s[..n];
      DedupOrder(init);
      var r := Dedup(s);
      var ri := Dedup(init);
      forall i, j | 0 <= i < j < |r| ensures FirstIndex(s, r[i]) < FirstIndex(s, r[j]) {
        assert r[i] == ri[i];
        FirstIndexPrefix(s, n, r[i]);
        if j < |ri| {
          assert r[j] == ri[j];
          FirstIndexPrefix(s, n, r[j]);
        } else {
          assert r[j] == s[n] && s[n] !in init;
          assert FirstIndex(s, r[j]) == n;
        }
      }
    }
  }

  /** `get_rule_templates(filename)`: the applicable templates, de-duplicated, or the error `.items()` raises. */
  function RuleTemplates(config: ConfigDict, filename: string): (r: Result<seq<string>, Error>)
    ensures r.Ok? <==> GetValue(config, "review.rule_templates", EmptyObj).Obj?
    ensures r.Err? ==> r.error == NoAttribute(PyType(GetValue(config, "review.rule_templates", EmptyObj)), "items")
  {
    match GetValue(config, "review.rule_templates", EmptyObj)
    case Obj(entries) => Ok(Dedup(Applicable(entries, Glob.Matcher(filename))))
    case t => Err(NoAttribute(PyType(t), "items"))
  }

  /**
   * Every name `get_rule_templates` returns comes from a pattern matching the
   * file, every such name is returned, and none twice.
   */
  lemma RuleTemplatesSound(config: ConfigDict, filename: string, t: string)
    requires RuleTemplates(config, filename).Ok?
    ensures var entries := GetValue(config, "review.rule_templates", EmptyObj).fields;
      t in RuleTemplates(config, filename).value <==>
      exists i :: 0 <= i < |entries| && Glob.Match(filename, entries[i].0) && t in TemplatesOf(entries[i].1)
    ensures var r := RuleTemplates(config, filename).value; forall i, j :: 0 <= i < j < |r| ==> r[i] != r[j]
  {
    var entries := GetValue(config, "review.rule_templates", EmptyObj).fields;
    ApplicableMembers(entries, Glob.Matcher(filename), t);
    assert forall i :: 0 <= i < |entries| ==> (Selects(Glob.Matcher(filename), entries[i], t) <==> Glob.Match(filename, entries[i].0) && t in TemplatesOf(entries[i].1));
  }

  // ---------------------------------------------------------------------------
  // Environment overrides

  const EnvPrefix := "AI_CODE_REVIEW_"

  /** The dotted configuration key an environment variable sets, or `None` when it lacks the prefix. */
  function EnvConfigKey(envKey: string): Option<string> {
    if StartsWith(envKey, EnvPrefix) then Some(ReplaceChar(Lower(envKey[|EnvPrefix|..]), '_', '.')) else None
  }

  /** The variable name that sets a dotted key: upper case, `.` written as `_`. */
  function EnvVariableFor(key: string): string {
    EnvPrefix + Upper(ReplaceChar(key, '.', '_'))
  }

  /** A dotted key without `_` and without upper-case letters is set by exactly its variable. */
  lemma EnvKeyRoundTrip(key: string)
    requires '_' !in key && forall i :: 0 <= i < |key| ==> !('A' <= key[i] <= 'Z')
    ensures EnvConfigKey(EnvVariableFor(key)) == Some(key)
  {
    var v := EnvVariableFor(key);
    var u := Upper(ReplaceChar(key, '.', '_'));
    assert StartsWith(v, EnvPrefix);
    assert v[|EnvPrefix|..] == u;
    var r := ReplaceChar(Lower(u), '_', '.');
    forall i | 0 <= i < |key| ensures r[i] == key[i] {
      CaseRoundTrip(ReplaceChar(key, '.', '_')[i]);
      assert key[i] != '_';
    }
    assert r == key;
  }

  /** Lower-casing undoes upper-casing on a character that is not an upper-case letter. */
  lemma CaseRoundTrip(c: char)
    requires !('A' <= c <= 'Z')
    ensures LowerChar(UpperChar(c)) == c
  {
  }

  /** No environment variable can reach a key containing `_`, such as `bedrock.max_tokens`. */
  lemma EnvKeyHasNoUnderscore(envKey: string)
    requires EnvConfigKey(envKey).Some?
    ensures '_' !in EnvConfigKey(envKey).value
  {
  }

  const TrueWords: seq<string> := ["true", "yes", "1", "on"]
  const FalseWords: seq<string> := ["false", "no", "0", "off"]

  /**
   * `_parse_env_value(value)`: a boolean word (any case) first, then `float`
   * when the text has a `.` and `int` when it has none, then a
   * comma-separated list of stripped items, else the text itself.
   * `parseFloat` is Python's `float()` (`None` for `ValueError`).
   */
  function ParseEnvValue(value: string, parseFloat: string -> Option<real>): (r: Value)
    ensures r.Bool? || r.Int? || r.Float? || r.Arr? || r.Str?
    ensures r.Bool? <==> Lower(value) in TrueWords || Lower(value) in FalseWords
    ensures r.Bool? ==> r.b == (Lower(value) in TrueWords)
    ensures r.Float? ==> '.' in value && parseFloat(value) == Some(r.r)
    ensures r.Int? ==> '.' !in value && ParseInt(value) == Some(r.i)
    ensures r.Arr? ==> ',' in value && r.items == StrippedItems(Split(value, ','))
    ensures r.Str? ==> r.s == value && ',' !in value
  {
    var low := Lower(value);
    if low in TrueWords then Bool(true)
    else if low in FalseWords then Bool(false)
    else
      var number: Option<Value> :=
        if '.' in value then
          (match parseFloat(value) case Some(x) => Some(Float(x)) case None => None)
        else
          (match ParseInt(value) case Some(n) => Some(Int(n)) case None => None);
      if number.Some? then number.value
      else if ',' in value then Arr(StrippedItems(Split(value, ',')))
      else Str(value)
  }

  function StrippedItems(parts: seq<string>): (r: seq<Value>)
    ensures |r| == |parts| && forall i :: 0 <= i < |parts| ==> r[i] == Str(Strip(parts[i]))
  {
    seq(|parts|, i requires 0 <= i < |parts| => Str(Strip(parts[i])))
  }

  /** `str(n)` comes back as the integer `n`, except `1` and `0`, which read as booleans. */
  lemma EnvIntRoundTrip(n: int, parseFloat: string -> Option<real>)
    ensures ParseEnvValue(IntToString(n), parseFloat) == if n == 1 then Bool(true) else if n == 0 then Bool(false) else Int(n)
  {
    var s := IntToString(n);
    NumberText(n);
    if n == 0 || n == 1 {
      assert Lower(s) == s;
    } else {
      ParseIntOfString(n);
      NotAWord(s);
      ParseEnvNumber(s, n, parseFloat);
    }
  }

  /** The decimal text of an integer: digits after an optional `-`, never `.`; `"0"` and `"1"` only for 0 and 1. */
  lemma NumberText(n: int)
    ensures var s := IntToString(n);
      |s| >= 1 && '.' !in s && Lower(s) == s
      && (forall i :: 0 <= i < |s| ==> '0' <= s[i] <= '9' || s[i] == '-')
      && (s == "1" <==> n == 1) && (s == "0" <==> n == 0)
  {
    var s := IntToString(n);
    if n >= 0 {
      var k: nat := n;
      if k >= 10 {
        assert |NatToString(k / 10)| >= 1;
      } else {
        assert s == [DigitChar(k)];
      }
    } else {
      assert s[0] == '-';
    }
  }

  /** Text made of digits and `-` is no boolean word unless it is `0` or `1`. */
  lemma NotAWord(s: string)
    requires |s| >= 1 && s != "1" && s != "0" && forall i :: 0 <= i < |s| ==> '0' <= s[i] <= '9' || s[i] == '-'
    ensures s !in TrueWords && s !in FalseWords
  {
    assert s[0] != 't' && s[0] != 'y' && s[0] != 'o' && s[0] != 'f' && s[0] != 'n';
  }

  /** A text that is no boolean word and has no `.` reads as what `int()` makes of it. */
  lemma ParseEnvNumber(s: string, n: int, parseFloat: string -> Option<real>)
    requires Lower(s) !in TrueWords && Lower(s) !in FalseWords && '.' !in s && ParseInt(s) == Some(n)
    ensures ParseEnvValue(s, parseFloat) == Int(n)
  {
  }

  /**
   * Items joined with commas come back as the list of those items when no
   * item holds `,` or `.` and none has surrounding white space.
   */
  lemma EnvListRoundTrip(items: seq<string>, parseFloat: string -> Option<real>)
    requires |items| >= 2
    requires forall i :: 0 <= i < |items| ==> ',' !in items[i] && '.' !in items[i] && Strip(items[i]) == items[i]
    ensures ParseEnvValue(Join(items, ","), parseFloat) == Arr(Strs(items))
  {
    var s := Join(items, ",");
    JoinedItems(items);
    CommaText(s);
    ParseEnvList(s, parseFloat);
    assert StrippedItems(items) == Strs(items);
  }

  /** Joining two or more items that hold no `,` or `.` gives a text with a `,`, no `.`, splitting back into the items. */
  lemma JoinedItems(items: seq<string>)
    requires |items| >= 2
    requires forall i :: 0 <= i < |items| ==> ',' !in items[i] && '.' !in items[i]
    ensures var s := Join(items, ","); ',' in s && '.' !in s && Split(s, ',') == items
  {
    var s := Join(items, ",");
    SplitJoin(items, ',');
    assert s == items[0] + "," + Join(items[1..], ",");
    assert s[|items[0]|] == ',';
    JoinAvoids(items, ",", '.');
  }

  /** A text with a `,` is no boolean word and no integer. */
  lemma CommaText(s: string)
    requires ',' in s
    ensures Lower(s) !in TrueWords && Lower(s) !in FalseWords && ParseInt(s).None?
  {
    var k :| 0 <= k < |s| && s[k] == ',';
    assert Lower(s)[k] == ',';
    CommaNotWord(Lower(s));
    CommaNotInt(s);
  }

  lemma CommaNotWord(w: string)
    requires ',' in w
    ensures w !in TrueWords && w !in FalseWords
  {
  }

  lemma CommaNotInt(s: string)
    requires ',' in s
    ensures ParseInt(s).None?
  {
    assert !IsSpace(',');
    if ParseInt(s).Some? {
      ParseIntChars(s, ',');
    }
  }

  /** A text with a `,` that is no boolean word and no number reads as the list of its stripped items. */
  lemma ParseEnvList(s: string, parseFloat: string -> Option<real>)
    requires Lower(s) !in TrueWords && Lower(s) !in FalseWords && ',' in s && '.' !in s && ParseInt(s).None?
    ensures ParseEnvValue(s, parseFloat) == Arr(StrippedItems(Split(s, ',')))
  {
  }

  /** Joining texts that avoid a character, with a separator that avoids it, avoids it too. */
  lemma {:induction false} JoinAvoids(parts: seq<string>, sep: string, c: char)
    requires c !in sep && forall i :: 0 <= i < |parts| ==> c !in parts[i]
    ensures c !in Join(parts, sep)
  {
    if |parts| > 1 {
      JoinAvoids(parts[1..], sep, c);
    }
  }

  // ---------------------------------------------------------------------------
  // Loading all sources

  /** The decoded YAML of the global and the project file (or the error loading raised) and the environment. */
  datatype Sources = Sources(globalFile: Result<Value, Error>, projectFile: Result<Value, Error>, environ: seq<(string, string)>)

  /** `_merge_config(_load_..._config())`: the error loading raised, or the merge of what was loaded. */
  function MergeFile(config: ConfigDict, file: Result<Value, Error>): Result<ConfigDict, Error> {
    match file
    case Err(e) => Err(e)
    case Ok(v) => MergeConfig(config, v)
  }

  /** The configuration a (possibly failed) `reload` leaves behind, and the error it raised. */
  datatype Loading = Loading(config: ConfigDict, failure: Option<Error>)

  /** `_apply_env_overrides`: each prefixed variable in turn, stopping at the first `set` that raises. */
  function EnvOverrides(config: ConfigDict, environ: seq<(string, string)>, parseFloat: string -> Option<real>): Loading
    decreases |environ|
  {
    if environ == [] then Loading(config, None)
    else match EnvConfigKey(environ[0].0)
      case None => EnvOverrides(config, environ[1..], parseFloat)
      case Some(key) =>
        match SetPath(config, Split(key, '.'), ParseEnvValue(environ[0].1, parseFloat))
        case Err(e) => Loading(config, Some(e))
        case Ok(c) => EnvOverrides(c, environ[1..], parseFloat)
  }

  /** The error `_validate_config` raises for a non-empty error list. */
  function ValidationFailure(errors: seq<string>): Error {
    ConfigurationError("Configuration validation failed: " + Join(errors, "; "))
  }

  /**
   * `reload()`: defaults, then the global and the project file merged in,
   * then the environment, then validation by `validate` (the validator's
   * error list for a configuration).
   */
  function Load(src: Sources, parseFloat: string -> Option<real>, validate: ConfigDict -> seq<string>): Loading {
    LoadOnto(DefaultConfig, src, parseFloat, validate)
  }

  /** `reload()` over the defaults `c0`. */
  function LoadOnto(c0: ConfigDict, src: Sources, parseFloat: string -> Option<real>, validate: ConfigDict -> seq<string>): Loading {
    match MergeFile(c0, src.globalFile)
    case Err(e) => Loading(c0, Some(e))
    case Ok(c1) =>
      match MergeFile(c1, src.projectFile)
      case Err(e) => Loading(c1, Some(e))
      case Ok(c2) =>
        var l := EnvOverrides(c2, src.environ, parseFloat);
        if l.failure.Some? then l
        else if validate(l.config) != [] then Loading(l.config, Some(ValidationFailure(validate(l.config))))
        else l
  }

  /** Overrides of other top-level keys leave a top-level key alone. */
  lemma {:induction false} EnvKeepsOtherTopKeys(config: ConfigDict, environ: seq<(string, string)>, parseFloat: string -> Option<real>, k: string)
    requires forall i :: 0 <= i < |environ| && EnvConfigKey(environ[i].0).Some? ==> Split(EnvConfigKey(environ[i].0).value, '.')[0] != k
    ensures OrderedMap.Get(EnvOverrides(config, environ, parseFloat).config, k) == OrderedMap.Get(config, k)
    decreases |environ|
  {
    if environ != [] {
      assert forall i :: 0 <= i < |environ[1..]| ==> environ[1..][i] == environ[i + 1];
      match EnvConfigKey(environ[0].0)
      case None =>
        EnvKeepsOtherTopKeys(config, environ[1..], parseFloat, k);
      case Some(key) =>
        var path := Split(key, '.');
        var v := ParseEnvValue(environ[0].1, parseFloat);
        if SetPath(config, path, v).Ok? {
          var c := SetPath(config, path, v).value;
          SetKeepsOtherPaths(config, path, v, [k], 0);
          LookupStep(c, [k]);
          LookupStep(config, [k]);
          EnvKeepsOtherTopKeys(c, environ[1..], parseFloat, k);
        }
    }
  }

  /**
   * Later sources win: a top-level key the project file sets to a value that
   * is not a mapping keeps that value unless an environment variable
   * overrides something under it.
   */
  lemma ProjectFileWins(c0: ConfigDict, src: Sources, parseFloat: string -> Option<real>, validate: ConfigDict -> seq<string>, k: string, v: Value)
    requires MergeFile(c0, src.globalFile).Ok?
    requires src.projectFile.Ok? && src.projectFile.value.Obj?
    requires var p := src.projectFile.value.fields; OrderedMap.UniqueKeys(p) && OrderedMap.Get(p, k) == Some(v) && !v.Obj?
    requires forall i :: 0 <= i < |src.environ| && EnvConfigKey(src.environ[i].0).Some? ==> Split(EnvConfigKey(src.environ[i].0).value, '.')[0] != k
    ensures OrderedMap.Get(LoadOnto(c0, src, parseFloat, validate).config, k) == Some(v)
  {
    var c1 := MergeFile(c0, src.globalFile).value;
    var p := src.projectFile.value.fields;
    assert Truthy(src.projectFile.value) by { assert p != []; }
    var c2 := DeepMerge(c1, p);
    assert MergeFile(c1, src.projectFile) == Ok(c2);
    LoadedConfig(c0, src, parseFloat, validate, c2);
    MergeGet(c1, p, k);
    MergedScalar(OrderedMap.Get(c1, k), v);
    EnvKeepsOtherTopKeys(c2, src.environ, parseFloat, k);
  }

  /** Validation never changes the configuration: a load that got past both files ends with the environment's result. */
  lemma LoadedConfig(c0: ConfigDict, src: Sources, parseFloat: string -> Option<real>, validate: ConfigDict -> seq<string>, c2: ConfigDict)
    requires MergeFile(c0, src.globalFile).Ok? && MergeFile(MergeFile(c0, src.globalFile).value, src.projectFile) == Ok(c2)
    ensures LoadOnto(c0, src, parseFloat, validate).config == EnvOverrides(c2, src.environ, parseFloat).config
  {
  }

  /** A value that is not a mapping replaces whatever the base held. */
  lemma MergedScalar(prior: Option<Value>, incoming: Value)
    requires !incoming.Obj?
    ensures Merged(prior, incoming) == incoming
  {
  }

  lemma MergeFromStep(base: ConfigDict, update: ConfigDict, i: nat)
    requires i < |update|
    ensures MergeFrom(base, update, i) ==
      MergeFrom(OrderedMap.Put(base, update[i].0, Merged(OrderedMap.Get(base, update[i].0), update[i].1)), update, i + 1)
  {
  }

  /**
   * `_deep_merge(base, update)`: walks the update's entries in order; where
   * both sides hold a mapping it merges the two recursively, otherwise it
   * assigns the update's value.
   */
  method DeepMergeInto(base: ConfigDict, update: ConfigDict) returns (merged: ConfigDict)
    ensures merged == DeepMerge(base, update)
    decreases Obj(update)
  {
    merged := base;
    var i := 0;
    while i < |update|
      invariant i <= |update|
      invariant MergeFrom(merged, update, i) == DeepMerge(base, update)
    {
      var key := update[i].0;
      var value := update[i].1;
      var prior := OrderedMap.Get(merged, key);
      var result := value;
      if prior.Some? && prior.value.Obj? && value.Obj? {
        assert update[i] in update;
        var inner := DeepMergeInto(prior.value.fields, value.fields);
        result := Obj(inner);
      }
      assert result == Merged(prior, value);
      MergeFromStep(merged, update, i);
      merged := OrderedMap.Put(merged, key, result);
      i := i + 1;
    }
  }

  /** The first loop of `get_rule_templates`: the templates of every matching pattern, in order. */
  method CollectTemplates(entries: ConfigDict, filename: string) returns (applicable: seq<string>)
    ensures applicable == Applicable(entries, Glob.Matcher(filename))
  {
    applicable := [];
    for i := 0 to |entries|
      invariant applicable == Applicable(entries[..i], Glob.Matcher(filename))
    {
      ApplicableStep(entries, i, Glob.Matcher(filename));
      var (pattern, templates) := entries[i];
      if Glob.Match(filename, pattern) {
        if templates.Str? {
          applicable := applicable + [templates.s];
        } else if templates.Arr? {
          applicable := applicable + StringItems(templates.items);
        }
      }
    }
    assert entries[..|entries|] == entries;
  }

  lemma ApplicableStep(entries: ConfigDict, i: nat, matches: string -> bool)
    requires i < |entries|
    ensures Applicable(entries[..i + 1], matches) ==
      Applicable(entries[..i], matches) + (if matches(entries[i].0) then TemplatesOf(entries[i].1) else [])
  {
    assert entries[..i + 1][..i] == entries[..i];
  }

  /** The second loop of `get_rule_templates`: keep each name the first time it is seen. */
  method Unique(names: seq<string>) returns (unique: seq<string>)
    ensures unique == Dedup(names)
  {
    var seen: set<string> := {};
    unique := [];
    for i := 0 to |names|
      invariant unique == Dedup(names[..i])
      invariant forall x :: x in seen <==> x in names[..i]
    {
      assert names[..i + 1][..i] == names[..i];
      assert names[..i + 1] == names[..i] + [names[i]];
      var name := names[i];
      if name !in seen {
        unique := unique + [name];
      }
      seen := seen + {name};
    }
    assert names[..|names|] == names;
  }

  class ConfigManager {
    /** `self._config` */
    var config: ConfigDict

    /** The manager before `reload` has run: `self._config = {}`. */
    constructor ()
      ensures config == []
    {
      config := [];
    }

    /** `get(key, default)`: walk the dotted key; a missing key or a non-mapping on the way gives `default`. */
    method Get(key: string, default: Value) returns (v: Value)
      ensures v == GetValue(config, key, default)
    {
      var keys := Split(key, '.');
      var value := Obj(config);
      var i := 0;
      while i < |keys|
        invariant 0 <= i <= |keys|
        invariant Lookup(Obj(config), keys) == Lookup(value, keys[i..])
      {
        assert keys[i..][1..] == keys[i + 1..];
        if !value.Obj? {
          return default;
        }
        var next := OrderedMap.Get(value.fields, keys[i]);
        if next.None? {
          return default;
        }
        value := next.value;
        i := i + 1;
      }
      return value;
    }

    /** `_merge_config(update)`: a falsy update changes nothing; a non-mapping raises before any change. */
    method MergeConfigInto(update: Value) returns (r: Result<(), Error>)
      modifies this
      ensures MergeConfig(old(config), update).Ok? ==> r == Ok(()) && config == MergeConfig(old(config), update).value
      ensures MergeConfig(old(config), update).Err? ==> r.Err? && r.error == NoAttribute(PyType(update), "items") && config == old(config)
    {
      if !Truthy(update) {
        return Ok(());
      }
      if !update.Obj? {
        return Err(NoAttribute(PyType(update), "items"));
      }
      config := DeepMergeInto(config, update.fields);
      return Ok(());
    }

    /**
     * `get_rule_templates(filename)`: collect the templates of every matching
     * pattern, then drop repeats keeping first occurrences.
     */
    method GetRuleTemplates(filename: string) returns (r: Result<seq<string>, Error>)
      ensures r == RuleTemplates(config, filename)
    {
      var ruleTemplates := Get("review.rule_templates", EmptyObj);
      if !ruleTemplates.Obj? {
        return Err(NoAttribute(PyType(ruleTemplates), "items"));
      }
      var applicable := CollectTemplates(ruleTemplates.fields, filename);
      var unique := Unique(applicable);
      return Ok(unique);
    }

    /** `_apply_env_overrides()` over the variables `environ`, in order. */
    method ApplyEnvOverrides(environ: seq<(string, string)>, parseFloat: string -> Option<real>) returns (r: Result<(), Error>)
      modifies this
      ensures config == EnvOverrides(old(config), environ, parseFloat).config
      ensures EnvOverrides(old(config), environ, parseFloat).failure.None? ==> r == Ok(())
      ensures EnvOverrides(old(config), environ, parseFloat).failure.Some? ==> r == Err(EnvOverrides(old(config), environ, parseFloat).failure.value)
    {
      var i := 0;
      while i < |environ|
        invariant i <= |environ|
        invariant EnvOverrides(config, environ[i..], parseFloat) == EnvOverrides(old(config), environ, parseFloat)
      {
        assert environ[i..][1..] == environ[i + 1..];
        var (envKey, envValue) := environ[i];
        var key := EnvConfigKey(envKey);
        if key.Some? {
          var outcome := Set(key.value, ParseEnvValue(envValue, parseFloat));
          if outcome.Err? {
            return outcome;
          }
        }
        i := i + 1;
      }
      return Ok(());
    }

    /**
     * `reload()`: defaults, global file, project file, environment, then
     * validation; a failing step raises and leaves what was done so far.
     */
    method Reload(src: Sources, parseFloat: string -> Option<real>, validate: ConfigDict -> seq<string>) returns (r: Result<(), Error>)
      modifies this
      ensures config == Load(src, parseFloat, validate).config
      ensures r.Ok? <==> Load(src, parseFloat, validate).failure.None?
      ensures r.Err? ==> r.error == Load(src, parseFloat, validate).failure.value
    {
      config := DefaultConfig;
      r := LoadSources(src, parseFloat, validate);
    }

    /** The steps of `reload()` after the defaults are in place. */
    method LoadSources(src: Sources, parseFloat: string -> Option<real>, validate: ConfigDict -> seq<string>) returns (r: Result<(), Error>)
      modifies this
      ensures config == LoadOnto(old(config), src, parseFloat, validate).config
      ensures r.Ok? <==> LoadOnto(old(config), src, parseFloat, validate).failure.None?
      ensures r.Err? ==> r.error == LoadOnto(old(config), src, parseFloat, validate).failure.value
    {
      if src.globalFile.Err? {
        return Err(src.globalFile.error);
      }
      r := MergeConfigInto(src.globalFile.value);
      if r.Err? {
        return;
      }
      if src.projectFile.Err? {
        return Err(src.projectFile.error);
      }
      r := MergeConfigInto(src.projectFile.value);
      if r.Err? {
        return;
      }
      r := ApplyEnvOverrides(src.environ, parseFloat);
      if r.Err? {
        return;
      }
      var errors := validate(config);
      if errors != [] {
        return Err(ValidationFailure(errors));
      }
      return Ok(());
    }

    /**
     * `set(key, value)`: descend to the parent of the last key, creating
     * `{}` for missing keys, then assign.  A non-mapping on the way raises
     * `TypeError` before anything has been changed.
     */
    method Set(key: string, value: Value) returns (r: Result<(), Error>)
      modifies this
      ensures SetPath(old(config), Split(key, '.'), value).Ok? ==>
        r == Ok(()) && config == SetPath(old(config), Split(key, '.'), value).value
      ensures SetPath(old(config), Split(key, '.'), value).Err? ==>
        r == Err(SetPath(old(config), Split(key, '.'), value).error) && config == old(config)
    {
      var keys := Split(key, '.');
      var chain, failure := Descend(config, keys, value);
      if failure.Some? {
        return Err(failure.value);
      }
      config := Rebuild(chain, keys, value);
      return Ok(());
    }
  }

  /** `ConfigManager()`: a manager exists only once its first `reload()` has succeeded. */
  method Create(src: Sources, parseFloat: string -> Option<real>, validate: ConfigDict -> seq<string>) returns (r: Result<ConfigManager, Error>)
    ensures r.Ok? <==> Load(src, parseFloat, validate).failure.None?
    ensures r.Ok? ==> fresh(r.value) && r.value.config == Load(src, parseFloat, validate).config
    ensures r.Err? ==> r.error == Load(src, parseFloat, validate).failure.value
  {
    var manager := new ConfigManager();
    var loaded := manager.Reload(src, parseFloat, validate);
    if loaded.Err? {
      return Err(loaded.error);
    }
    return Ok(manager);
  }

  /** Consecutive mappings along `keys`: each is the child of the one before. */
  predicate Linked(chain: seq<ConfigDict>, keys: seq<string>) {
    |chain| == |keys| && forall t :: 0 <= t < |keys| - 1 ==> Child(chain[t], keys[t]) == Some(chain[t + 1])
  }

  /**
   * The descent of `set`: the mappings from `root` to the parent of the last
   * key, creating `{}` for missing keys, or the error raised at a non-mapping.
   */
  method Descend(root: ConfigDict, keys: seq<string>, value: Value) returns (chain: seq<ConfigDict>, failure: Option<Error>)
    requires |keys| >= 1
    ensures failure.Some? ==> SetPath(root, keys, value).Err? && SetPath(root, keys, value).error == failure.value
    ensures failure.None? ==> Linked(chain, keys) && chain[0] == root
  {
    var n := |keys|;
    chain := [root];
    var j := 0;
    while j < n - 1
      invariant 0 <= j <= n - 1
      invariant |chain| == j + 1 && chain[0] == root
      invariant forall t :: 0 <= t < j ==> Child(chain[t], keys[t]) == Some(chain[t + 1])
    {
      var next := Child(chain[j], keys[j]);
      if next.None? {
        BlockedPath(chain, keys, value, 0, j);
        return chain, Some(SetError(OrderedMap.Get(chain[j], keys[j]).value, keys[j + 1], j + 2 == n));
      }
      chain := chain + [next.value];
      j := j + 1;
    }
    return chain, None;
  }

  /** The assignment of `set`: the last mapping gets the value, then each parent gets its updated child. */
  method Rebuild(chain: seq<ConfigDict>, keys: seq<string>, value: Value) returns (acc: ConfigDict)
    requires |keys| >= 1 && Linked(chain, keys)
    ensures SetPath(chain[0], keys, value) == Ok(acc)
  {
    var n := |keys|;
    acc := OrderedMap.Put(chain[n - 1], keys[n - 1], value);
    assert keys[n - 1..] == [keys[n - 1]];
    SetPathLast(chain[n - 1], keys[n - 1..], value);
    var j := n - 1;
    while j > 0
      invariant 0 <= j <= n - 1
      invariant SetPath(chain[j], keys[j..], value) == Ok(acc)
    {
      assert keys[j - 1..][1..] == keys[j..] && keys[j - 1..][0] == keys[j - 1];
      assert Child(chain[j - 1], keys[j - 1]) == Some(chain[j]);
      SetPathLink(chain[j - 1], keys[j - 1..], value, chain[j], acc);
      acc := OrderedMap.Put(chain[j - 1], keys[j - 1], Obj(acc));
      j := j - 1;
    }
    assert keys[0..] == keys;
  }

  /** `set` of a one-key path assigns in the mapping itself. */
  lemma SetPathLast(m: ConfigDict, path: seq<string>, v: Value)
    requires |path| == 1
    ensures SetPath(m, path, v) == Ok(OrderedMap.Put(m, path[0], v))
  {
  }

  /** `set` through an existing or fresh child mapping. */
  lemma SetPathLink(m: ConfigDict, path: seq<string>, v: Value, f: ConfigDict, f': ConfigDict)
    requires |path| >= 2 && Child(m, path[0]) == Some(f) && SetPath(f, path[1..], v) == Ok(f')
    ensures SetPath(m, path, v) == Ok(OrderedMap.Put(m, path[0], Obj(f')))
  {
  }

  /**
   * A descent chain that meets a non-mapping at key `j` makes `set` fail from
   * any earlier point, with the error for that value and the next key.
   */
  lemma {:induction false} BlockedPath(chain: seq<ConfigDict>, keys: seq<string>, v: Value, t: nat, j: nat)
    requires t <= j < |chain| && j < |keys| - 1
    requires forall s :: t <= s < j ==> Child(chain[s], keys[s]) == Some(chain[s + 1])
    requires Child(chain[j], keys[j]).None?
    ensures SetPath(chain[t], keys[t..], v).Err?
    ensures SetPath(chain[t], keys[t..], v).error == SetError(OrderedMap.Get(chain[j], keys[j]).value, keys[j + 1], j + 2 == |keys|)
    decreases j - t
  {
    assert keys[t..][1..] == keys[t + 1..];
    if t < j {
      BlockedPath(chain, keys, v, t + 1, j);
    }
  }
}
