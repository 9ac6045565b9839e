/**
 * Rule resolution (`RuleProcessor`): which review rules apply to a file.
 * Named rule templates are loaded through a cache, merged in order (a later
 * template's rule replaces an earlier one of the same name), filtered to the
 * enabled rules, and each rule is adjusted by the file-pattern overrides it
 * declares.  Templates are also validated before they are written.
 *
 * The three YAML locations searched for a template are abstract: a
 * `TemplateStore` says, for each template name, what reading each location
 * gives, in search order.
 */
module Rules {
  import opened Wrappers
  import opened Strings
  import opened Json
  import opened Exceptions
  import opened OrderedMap
  import Glob

  /** A mapping from rule name (or other key) to its YAML value. */
  type Rules = Dict<string, Value>

  /** What one template location gives: no file, a file that fails to load, or its parsed content. */
  datatype FileRead = Absent | Unreadable | Read(data: Value)

  /** For each template name, the outcome at each location, in search order. */
  type TemplateStore = string -> seq<FileRead>

  /**
   * What `_apply_file_overrides` raises for a rule configuration that is not
   * a mapping: `rule_config.copy()` fails first, except on a list, which has
   * `copy` and fails at `rule_config.get(...)`.
   */
  function RuleConfigError(ruleConfig: Value): (e: Error)
    ensures e.BuiltinError? && e.kind == "AttributeError"
    ensures ruleConfig.Arr? ==> e == NoAttribute("list", "get")
    ensures !ruleConfig.Arr? ==> e == NoAttribute(PyType(ruleConfig), "copy")
  {
    if ruleConfig.Arr? then NoAttribute(PyType(ruleConfig), "get") else NoAttribute(PyType(ruleConfig), "copy")
  }

  // ---------------------------------------------------------------------
  // Loading one template
  // ---------------------------------------------------------------------

  /** The parsed content of the first location that could be read; the search stops there. */
  function FirstRead(outcomes: seq<FileRead>): (r: Option<Value>)
    ensures r.Some? <==> exists i :: 0 <= i < |outcomes| && outcomes[i].Read?
    ensures r.Some? ==> Read(r.value) in outcomes
  {
    if outcomes == [] then None
    else if outcomes[0].Read? then Some(outcomes[0].data)
    else FirstRead(outcomes[1..])
  }

  /** The first location that could be read decides, even when it holds an empty document. */
  lemma {:induction false} FirstReadIsFirst(outcomes: seq<FileRead>, i: nat)
    requires i < |outcomes| && outcomes[i].Read?
    requires forall j :: 0 <= j < i ==> !outcomes[j].Read?
    ensures FirstRead(outcomes) == Some(outcomes[i].data)
  {
    if i > 0 {
      assert outcomes[1..][i - 1] == outcomes[i];
      FirstReadIsFirst(outcomes[1..], i - 1);
    }
  }

  /** What loading a template gives with nothing cached: its `rules`, `{}` when not found. */
  function Fresh(store: TemplateStore, name: string): (r: Result<Value, Error>)
    ensures FirstRead(store(name)) in {None, Some(Null)} ==> r == Ok(EmptyObj)
    ensures r.Err? <==> exists d :: FirstRead(store(name)) == Some(d) && d != Null && !d.Obj?
    ensures r.Err? ==> FirstRead(store(name)).Some? && r.error == NoAttribute(PyType(FirstRead(store(name)).value), "get")
  {
    match FirstRead(store(name))
    case None => Ok(EmptyObj)
    case Some(Null) => Ok(EmptyObj)
    case Some(Obj(f)) => Ok(GetOr(f, "rules", EmptyObj))
    case Some(d) => Err(NoAttribute(PyType(d), "get"))
  }

  /**
   * `_load_rule_template`: the result and the new cache.  A cached name is
   * answered from the cache; a name found nowhere gives `{}` and is not
   * cached; a found template's `rules` are cached.
   */
  function LoadTemplate(cache: map<string, Value>, store: TemplateStore, name: string): (r: (Result<Value, Error>, map<string, Value>))
    ensures name in cache ==> r == (Ok(cache[name]), cache)
    ensures name !in cache && FirstRead(store(name)) in {None, Some(Null)} ==> r == (Ok(EmptyObj), cache)
    ensures name !in cache && r.0.Ok? ==> r.0 == Fresh(store, name)
    ensures r.1 == cache || (name !in cache && r.0.Ok? && r.1 == cache[name := r.0.value])
  {
    if name in cache then (Ok(cache[name]), cache)
    else
      match FirstRead(store(name))
      case None => (Ok(EmptyObj), cache)
      case Some(Null) => (Ok(EmptyObj), cache)
      case Some(Obj(f)) =>
        var rules := GetOr(f, "rules", EmptyObj);
        (Ok(rules), cache[name := rules])
      case Some(d) => (Err(NoAttribute(PyType(d), "get")), cache)
  }

  /** Every cached entry is what a fresh load of that name gives. */
  ghost predicate Coherent(cache: map<string, Value>, store: TemplateStore) {
    forall name :: name in cache ==> Fresh(store, name) == Ok(cache[name])
  }

  /** While the store does not change, a load through a coherent cache gives the fresh result and keeps the cache coherent. */
  lemma LoadTemplateCoherent(cache: map<string, Value>, store: TemplateStore, name: string)
    requires Coherent(cache, store)
    ensures LoadTemplate(cache, store, name).0 == Fresh(store, name)
    ensures Coherent(LoadTemplate(cache, store, name).1, store)
  {
  }

  // ---------------------------------------------------------------------
  // Loading and merging a list of templates
  // ---------------------------------------------------------------------

  /** The templates loaded in order, each through the cache the previous loads left. */
  function LoadAll(cache: map<string, Value>, store: TemplateStore, names: seq<string>): (r: (map<string, Value>, seq<Result<Value, Error>>))
    ensures |r.1| == |names|
  {
    if names == [] then (cache, [])
    else
      var n := |names| - 1;
      var prior := LoadAll(cache, store, names[..n]);
      var step := LoadTemplate(prior.0, store, names[n]);
      (step.1, prior.1 + [step.0])
  }

  lemma LoadAllStep(cache: map<string, Value>, store: TemplateStore, names: seq<string>, i: nat)
    requires i < |names|
    ensures var prior := LoadAll(cache, store, names[..i]);
            var step := LoadTemplate(prior.0, store, names[i]);
            LoadAll(cache, store, names[..i + 1]) == (step.1, prior.1 + [step.0])
  {
    assert names[..i + 1][..i] == names[..i];
  }

  /** With a coherent cache, loading a list gives exactly the fresh result of each name, and the cache stays coherent. */
  lemma {:induction false} LoadAllFresh(cache: map<string, Value>, store: TemplateStore, names: seq<string>)
    requires Coherent(cache, store)
    ensures Coherent(LoadAll(cache, store, names).0, store)
    ensures forall i :: 0 <= i < |names| ==> LoadAll(cache, store, names).1[i] == Fresh(store, names[i])
  {
    if names != [] {
      var n := |names| - 1;
      var init := names[..n];
      LoadAllFresh(cache, store, init);
      var prior := LoadAll(cache, store, init);
      var step := LoadTemplate(prior.0, store, names[n]);
      LoadTemplateCoherent(prior.0, store, names[n]);
      LoadAllStep(cache, store, names, n);
      assert names[..n + 1] == names;
      var all := LoadAll(cache, store, names);
      assert all == (step.1, prior.1 + [step.0]);
      forall i | 0 <= i < |names| ensures all.1[i] == Fresh(store, names[i]) {
        if i < n {
          assert all.1[i] == prior.1[i] && init[i] == names[i];
        } else {
          assert all.1[i] == step.0;
        }
      }
    }
  }

  /**
   * The rule mappings the merge applies: one per load that gave a mapping;
   * a load that raised, or gave anything else, contributes nothing.
   */
  function TemplateRules(results: seq<Result<Value, Error>>): (r: seq<Rules>)
    ensures |r| <= |results|
    ensures forall d :: d in r ==> Ok(Obj(d)) in results
  {
    if results == [] then []
    else
      var n := |results| - 1;
      var init := TemplateRules(results[..n]);
      match results[n]
      case Ok(Obj(f)) => init + [f]
      case _ => init
  }

  /** The merge is compositional: templates before and after contribute independently. */
  lemma {:induction false} TemplateRulesAppend(a: seq<Result<Value, Error>>, b: seq<Result<Value, Error>>)
    ensures TemplateRules(a + b) == TemplateRules(a) + TemplateRules(b)
  {
    if b != [] {
      var n := |b| - 1;
      assert (a + b)[..|a| + n] == a + b[..n];
      assert (a + b)[|a| + n] == b[n];
      TemplateRulesAppend(a, b[..n]);
    } else {
      assert a + b == a;
    }
  }

  /** A template that failed to load (or gave no mapping) leaves the merge as if it were not listed. */
  lemma TemplateRulesSkip(a: seq<Result<Value, Error>>, r: Result<Value, Error>, b: seq<Result<Value, Error>>)
    requires !(r.Ok? && r.value.Obj?)
    ensures TemplateRules(a + [r] + b) == TemplateRules(a + b)
  {
    TemplateRulesAppend(a + [r], b);
    TemplateRulesAppend(a, [r]);
    TemplateRulesAppend(a, b);
    assert [r][..0] == [];
  }

  /** All rules of the templates, a later template's rule replacing an earlier one of the same name. */
  function MergedRules(results: seq<Result<Value, Error>>): Rules {
    UpdateAll([], TemplateRules(results))
  }

  lemma MergedRulesStep(results: seq<Result<Value, Error>>, r: Result<Value, Error>)
    ensures MergedRules(results + [r]) == if r.Ok? && r.value.Obj? then Update(MergedRules(results), r.value.fields) else MergedRules(results)
  {
    assert (results + [r])[..|results|] == results;
  }

  /** A rule name holds `v` in the merge exactly when the last template defining it gives `v`. */
  lemma {:induction false} LaterTemplateWins(results: seq<Result<Value, Error>>, k: string, v: Value)
    requires forall d :: d in TemplateRules(results) ==> UniqueKeys(d)
    ensures Get(MergedRules(results), k) == Some(v) ==> exists i :: LastWith(TemplateRules(results), k, v, i)
    ensures (exists i :: LastWith(TemplateRules(results), k, v, i)) ==> Get(MergedRules(results), k) == Some(v)
  {
    var ds := TemplateRules(results);
    assert forall i :: 0 <= i < |ds| ==> ds[i] in ds;
    UpdateAllGet([], ds, k);
    assert Get<string, Value>([], k) == None;
    assert MergedRules(results) == UpdateAll([], ds);
    assert Get(MergedRules(results), k) == LastHolding(ds, k);
    LastHoldingSpec(ds, k, v);
    assert LastHolding(ds, k) == Some(v) <==> exists i :: LastWith(ds, k, v, i);
    assert Get(MergedRules(results), k) == Some(v) <==> exists i :: LastWith(TemplateRules(results), k, v, i);
  }

  // ---------------------------------------------------------------------
  // File overrides
  // ---------------------------------------------------------------------

  /** What iterating a value gives: a string's characters, a list's items, a dict's keys; `None` when it cannot be iterated. */
  function Elements(v: Value): (r: Option<seq<Value>>)
    ensures v.Str? ==> r.Some? && |r.value| == |v.s| && forall j :: 0 <= j < |v.s| ==> r.value[j] == Str([v.s[j]])
    ensures v.Arr? ==> r == Some(v.items)
    ensures v.Obj? ==> r.Some? && |r.value| == |v.fields|
    ensures r.None? <==> !(v.Str? || v.Arr? || v.Obj?)
  {
    match v
    case Str(s) => Some(seq(|s|, j requires 0 <= j < |s| => Str([s[j]])))
    case Arr(items) => Some(items)
    case Obj(f) => Some(seq(|f|, j requires 0 <= j < |f| => Str(f[j].0)))
    case _ => None
  }

  /**
   * `dict.update` reading element `i` of a sequence of pairs: the pair, or
   * `None` for a key that is a number, a boolean or null, which a
   * configuration keyed by strings cannot hold.
   */
  function UpdatePair(i: nat, item: Value): (r: Result<Option<(string, Value)>, Error>)
    ensures r.Ok? <==> Elements(item).Some? && |Elements(item).value| == 2
                       && !Elements(item).value[0].Arr? && !Elements(item).value[0].Obj?
    ensures r.Ok? && r.value.Some? ==> Elements(item).value[0] == Str(r.value.value.0) && Elements(item).value[1] == r.value.value.1
  {
    var elems := Elements(item);
    if elems.None? then
      Err(BuiltinError("TypeError", "cannot convert dictionary update sequence element #" + IntToString(i) + " to a sequence"))
    else if |elems.value| != 2 then
      Err(BuiltinError("ValueError", "dictionary update sequence element #" + IntToString(i) + " has length "
                                     + IntToString(|elems.value|) + "; 2 is required"))
    else
      match elems.value[0]
      case Str(k) => Ok(Some((k, elems.value[1])))
      case Arr(_) => Err(BuiltinError("TypeError", "unhashable type: 'list'"))
      case Obj(_) => Err(BuiltinError("TypeError", "unhashable type: 'dict'"))
      case _ => Ok(None)
  }

  /** `dict.update` from a sequence of pairs: the pairs in order, or the failure of the first element that is not one. */
  function UpdatePairs(items: seq<Value>): (r: Result<Rules, Error>)
    ensures r.Ok? <==> forall i :: 0 <= i < |items| ==> UpdatePair(i, items[i]).Ok?
    ensures r.Err? ==> exists i :: 0 <= i < |items| && UpdatePair(i, items[i]).Err?
                                   && (forall j :: 0 <= j < i ==> UpdatePair(j, items[j]).Ok?)
                                   && r.error == UpdatePair(i, items[i]).error
    ensures r.Ok? ==> |r.value| <= |items|
  {
    if items == [] then Ok([])
    else
      var n := |items| - 1;
      var init := UpdatePairs(items[..n]);
      assert forall i :: 0 <= i < n ==> items[..n][i] == items[i];
      if init.Err? then init
      else
        var p := UpdatePair(n, items[n]);
        if p.Err? then Err(p.error)
        else if p.value.None? then init
        else Ok(init.value + [p.value.value])
  }

  /** A list of `[key, value]` lists with string keys updates with exactly those pairs, in order. */
  lemma {:induction false} UpdatePairsOfLists(items: seq<Value>)
    requires forall i :: 0 <= i < |items| ==> items[i].Arr? && |items[i].items| == 2 && items[i].items[0].Str?
    ensures UpdatePairs(items).Ok?
    ensures |UpdatePairs(items).value| == |items|
    ensures forall i :: 0 <= i < |items| ==> UpdatePairs(items).value[i] == (items[i].items[0].s, items[i].items[1])
  {
    if items != [] {
      var n := |items| - 1;
      assert forall i :: 0 <= i < n ==> items[..n][i] == items[i];
      UpdatePairsOfLists(items[..n]);
      var p := UpdatePair(n, items[n]);
      assert p.Ok? && p.value == Some((items[n].items[0].s, items[n].items[1]));
    }
  }

  /**
   * `final_config.update(overrides)`: a mapping gives its entries, a sequence
   * of pairs its pairs; anything else fails as Python's `dict.update` does.
   */
  function OverrideDict(v: Value): (r: Result<Rules, Error>)
    ensures v.Obj? ==> r == Ok(v.fields)
    ensures Elements(v).None? ==> r.Err? && r.error == BuiltinError("TypeError", "'" + PyType(v) + "' object is not iterable")
  {
    match v
    case Obj(f) => Ok(f)
    case _ =>
      var elems := Elements(v);
      if elems.None? then Err(BuiltinError("TypeError", "'" + PyType(v) + "' object is not iterable"))
      else
        UpdatePairs(elems.value)
  }

  /** A one-character string iterates to itself. */
  lemma CharElements(c: char)
    ensures Elements(Str([c])).Some? && Elements(Str([c])).value == [Str([c])]
  {
    assert Elements(Str([c])).value[0] == Str([c]);
  }

  /** A one-character string as an update element has length 1. */
  lemma CharElementFails(c: char)
    ensures UpdatePair(0, Str([c])).Err?
    ensures UpdatePair(0, Str([c])).error == BuiltinError("ValueError", "dictionary update sequence element #0 has length 1; 2 is required")
  {
    CharElements(c);
    var zero, one := IntToString(0), IntToString(1);
    assert zero == "0" && one == "1";
    assert UpdatePair(0, Str([c])).error == BuiltinError("ValueError", "dictionary update sequence element #" + zero + " has length " + one + "; 2 is required");
  }

  /** A string is a sequence of one-character elements: only the empty string is a valid update. */
  lemma OverrideDictString(s: string)
    ensures OverrideDict(Str(s)).Ok? <==> s == []
    ensures s != [] ==> OverrideDict(Str(s)).Err?
                        && OverrideDict(Str(s)).error == BuiltinError("ValueError", "dictionary update sequence element #0 has length 1; 2 is required")
  {
    var elems := Elements(Str(s)).value;
    if s != [] {
      assert elems[0] == Str([s[0]]);
      CharElementFails(s[0]);
      var r := UpdatePairs(elems);
      assert !r.Ok?;
      var i :| 0 <= i < |elems| && UpdatePair(i, elems[i]).Err? && (forall j :: 0 <= j < i ==> UpdatePair(j, elems[j]).Ok?)
               && r.error == UpdatePair(i, elems[i]).error;
      assert i == 0;
    }
  }


  /** The updates of the matching override patterns in declaration order, or the first failing one's error. */
  function OverrideDicts(entries: Rules, matches: string -> bool): (r: Result<seq<Rules>, Error>)
    ensures r.Ok? ==> |r.value| <= |entries|
  {
    if entries == [] then Ok([])
    else
      var n := |entries| - 1;
      match OverrideDicts(entries[..n], matches)
      case Err(e) => Err(e)
      case Ok(ds) =>
        if !matches(entries[n].0) then Ok(ds)
        else match OverrideDict(entries[n].1)
          case Err(e) => Err(e)
          case Ok(d) => Ok(ds + [d])
  }

  /** One more entry of the overrides loop, after the earlier ones succeeded. */
  lemma OverrideDictsNext(entries: Rules, i: nat, matches: string -> bool)
    requires i < |entries| && OverrideDicts(entries[..i], matches).Ok?
    ensures !matches(entries[i].0) ==> OverrideDicts(entries[..i + 1], matches) == OverrideDicts(entries[..i], matches)
    ensures matches(entries[i].0) && OverrideDict(entries[i].1).Err? ==>
      OverrideDicts(entries[..i + 1], matches).Err? && OverrideDicts(entries[..i + 1], matches).error == OverrideDict(entries[i].1).error
    ensures matches(entries[i].0) && OverrideDict(entries[i].1).Ok? ==>
      OverrideDicts(entries[..i + 1], matches).Ok?
      && OverrideDicts(entries[..i + 1], matches).value == OverrideDicts(entries[..i], matches).value + [OverrideDict(entries[i].1).value]
  {
    assert entries[..i + 1][..i] == entries[..i];
  }

  /** A matching override that fails makes the whole loop fail with its error. */
  lemma OverrideDictsFailAt(entries: Rules, i: nat, matches: string -> bool)
    requires i < |entries| && OverrideDicts(entries[..i], matches).Ok?
    requires matches(entries[i].0) && OverrideDict(entries[i].1).Err?
    ensures OverrideDicts(entries, matches).Err? && OverrideDicts(entries, matches).error == OverrideDict(entries[i].1).error
  {
    OverrideDictsNext(entries, i, matches);
    OverrideDictsPrefixErr(entries, i + 1, matches);
  }

  /** Once a prefix of the entries fails, the whole loop fails with the same error. */
  lemma {:induction false} OverrideDictsPrefixErr(entries: Rules, k: nat, matches: string -> bool)
    requires k <= |entries| && OverrideDicts(entries[..k], matches).Err?
    ensures OverrideDicts(entries, matches).Err? && OverrideDicts(entries, matches).error == OverrideDicts(entries[..k], matches).error
    decreases |entries|
  {
    if k < |entries| {
      var n := |entries| - 1;
      assert entries[..n][..k] == entries[..k];
      OverrideDictsPrefixErr(entries[..n], k, matches);
    } else {
      assert entries[..k] == entries;
    }
  }

  /** A matching override that succeeds is applied on top of the earlier ones. */
  lemma OverrideApplied(base: Rules, entries: Rules, i: nat, matches: string -> bool)
    requires i < |entries| && OverrideDicts(entries[..i], matches).Ok?
    requires matches(entries[i].0) && OverrideDict(entries[i].1).Ok?
    ensures OverrideDicts(entries[..i + 1], matches).Ok?
    ensures UpdateAll(base, OverrideDicts(entries[..i + 1], matches).value)
            == Update(UpdateAll(base, OverrideDicts(entries[..i], matches).value), OverrideDict(entries[i].1).value)
  {
    OverrideDictsNext(entries, i, matches);
    var ds := OverrideDicts(entries[..i], matches).value;
    assert (ds + [OverrideDict(entries[i].1).value])[..|ds|] == ds;
  }

  function Concat(x: Result<seq<Rules>, Error>, y: Result<seq<Rules>, Error>): Result<seq<Rules>, Error> {
    match x
    case Err(e) => Err(e)
    case Ok(a) => match y case Err(e) => Err(e) case Ok(b) => Ok(a + b)
  }

  lemma {:induction false} OverrideDictsAppend(a: Rules, b: Rules, matches: string -> bool)
    ensures OverrideDicts(a + b, matches) == Concat(OverrideDicts(a, matches), OverrideDicts(b, matches))
  {
    if b != [] {
      var n := |b| - 1;
      assert (a + b)[..|a| + n] == a + b[..n];
      assert (a + b)[|a| + n] == b[n];
      OverrideDictsAppend(a, b[..n], matches);
      var x := OverrideDicts(a, matches);
      var y := OverrideDicts(b[..n], matches);
      var d := OverrideDict(b[n].1);
      if x.Ok? && y.Ok? && matches(b[n].0) && d.Ok? {
        assert (x.value + y.value) + [d.value] == x.value + (y.value + [d.value]);
      }
    } else {
      assert a + b == a;
      if OverrideDicts(a, matches).Ok? {
        assert OverrideDicts(a, matches).value + [] == OverrideDicts(a, matches).value;
      }
    }
  }

  /** Override patterns that do not match the file have no effect, not even an error. */
  lemma {:induction false} UnmatchedOverridesIgnored(entries: Rules, matches: string -> bool)
    ensures OverrideDicts(entries, matches) == OverrideDicts(FilterKeys(entries, matches), matches)
  {
    if entries != [] {
      var rest := entries[1..];
      assert entries == [entries[0]] + rest;
      UnmatchedOverridesIgnored(rest, matches);
      OverrideDictsAppend([entries[0]], rest, matches);
      assert [entries[0]][..0] == [];
      if matches(entries[0].0) {
        OverrideDictsAppend([entries[0]], FilterKeys(rest, matches), matches);
      } else {
        assert OverrideDicts([entries[0]], matches) == Ok([]);
        if OverrideDicts(rest, matches).Ok? {
          assert [] + OverrideDicts(rest, matches).value == OverrideDicts(rest, matches).value;
        }
      }
    }
  }

  /** `rule_config.get('file_overrides', {})` as a list of pattern/override entries. */
  function OverrideEntries(base: Rules): (r: Result<Rules, Error>)
    ensures r.Ok? <==> Get(base, "file_overrides").None? || Get(base, "file_overrides").value.Obj?
    ensures r.Err? ==> Get(base, "file_overrides").Some? && r.error == NoAttribute(PyType(Get(base, "file_overrides").value), "items")
  {
    var overrides: Option<Value> := Get(base, "file_overrides");
    match overrides
    case None => Ok([])
    case Some(Obj(entries)) => Ok(entries)
    case Some(v) => Err(NoAttribute(PyType(v), "items"))
  }

  /**
   * `_apply_file_overrides`: a copy of the rule configuration with each
   * matching pattern's override applied in turn.  The configuration itself is
   * a value and so is never changed.
   */
  function FileOverrides(ruleConfig: Value, matches: string -> bool): (r: Result<Value, Error>)
    ensures r.Ok? ==> r.value.Obj?
    ensures r.Ok? <==> ruleConfig.Obj? && OverrideEntries(ruleConfig.fields).Ok?
                       && OverrideDicts(OverrideEntries(ruleConfig.fields).value, matches).Ok?
    ensures !ruleConfig.Obj? ==> r.Err? && r.error == RuleConfigError(ruleConfig)
    ensures ruleConfig.Obj? && OverrideEntries(ruleConfig.fields).Err? ==> r.Err? && r.error == OverrideEntries(ruleConfig.fields).error
    ensures ruleConfig.Obj? && OverrideEntries(ruleConfig.fields).Ok? && OverrideDicts(OverrideEntries(ruleConfig.fields).value, matches).Err? ==>
      r.Err? && r.error == OverrideDicts(OverrideEntries(ruleConfig.fields).value, matches).error
  {
    match ruleConfig
    case Obj(base) =>
      (match OverrideEntries(base)
       case Err(e) => Err(e)
       case Ok(entries) =>
         match OverrideDicts(entries, matches)
         case Err(e) => Err(e)
         case Ok(ds) => Ok(Obj(UpdateAll(base, ds))))
    case _ => Err(RuleConfigError(ruleConfig))
  }

  /** Overridden settings: the last matching override holding a key decides it; otherwise the base value stays. */
  lemma LastMatchingOverrideWins(base: Rules, matches: string -> bool, k: string)
    requires FileOverrides(Obj(base), matches).Ok?
    requires forall d :: d in OverrideDicts(OverrideEntries(base).value, matches).value ==> UniqueKeys(d)
    ensures var ds := OverrideDicts(OverrideEntries(base).value, matches).value;
            Get(FileOverrides(Obj(base), matches).value.fields, k)
            == if LastHolding(ds, k).Some? then LastHolding(ds, k) else Get(base, k)
  {
    var ds := OverrideDicts(OverrideEntries(base).value, matches).value;
    assert forall i :: 0 <= i < |ds| ==> ds[i] in ds;
    UpdateAllGet(base, ds, k);
  }

  /** With no matching override, the copy equals the base configuration. */
  lemma NoMatchingOverride(base: Rules, matches: string -> bool)
    requires OverrideEntries(base).Ok?
    requires forall i :: 0 <= i < |OverrideEntries(base).value| ==> !matches(OverrideEntries(base).value[i].0)
    ensures FileOverrides(Obj(base), matches) == Ok(Obj(base))
  {
    var entries := OverrideEntries(base).value;
    UnmatchedOverridesIgnored(entries, matches);
    FilterKeysNone(entries, matches);
  }

  /** The overrides loop of `_apply_file_overrides`, for any pattern test. */
  method ApplyOverrides(base: Rules, entries: Rules, matches: string -> bool) returns (r: Result<Value, Error>)
    ensures r.Ok? <==> OverrideDicts(entries, matches).Ok?
    ensures r.Ok? ==> r.value == Obj(UpdateAll(base, OverrideDicts(entries, matches).value))
    ensures r.Err? ==> r.error == OverrideDicts(entries, matches).error
  {
    var finalConfig := base;
    var i := 0;
    while i < |entries|
      invariant 0 <= i <= |entries|
      invariant OverrideDicts(entries[..i], matches).Ok?
      invariant finalConfig == UpdateAll(base, OverrideDicts(entries[..i], matches).value)
    {
      OverrideDictsNext(entries, i, matches);
      if matches(entries[i].0) {
        var d := OverrideDict(entries[i].1);
        if d.Err? {
          OverrideDictsFailAt(entries, i, matches);
          return Err(d.error);
        }
        OverrideApplied(base, entries, i, matches);
        finalConfig := Update(finalConfig, d.value);
      }
      i := i + 1;
    }
    assert entries[..i] == entries;
    r := Ok(Obj(finalConfig));
  }

  /** `_apply_file_overrides(rule_config, filename)` */
  method ApplyFileOverrides(ruleConfig: Value, filename: string) returns (r: Result<Value, Error>)
    ensures r == FileOverrides(ruleConfig, Glob.Matcher(filename))
  {
    if !ruleConfig.Obj? {
      return Err(RuleConfigError(ruleConfig));
    }
    var entries := OverrideEntries(ruleConfig.fields);
    if entries.Err? {
      return Err(entries.error);
    }
    r := ApplyOverrides(ruleConfig.fields, entries.value, Glob.Matcher(filename));
  }

  // ---------------------------------------------------------------------
  // Filtering to the enabled rules
  // ---------------------------------------------------------------------

  /**
   * The merged rules restricted to the enabled names, in merge order, each
   * with its file overrides applied; an override failure is raised.
   */
  function FilterEnabled(all: Rules, enabled: seq<string>, apply: Value -> Result<Value, Error>): Result<Rules, Error> {
    if all == [] then Ok([])
    else
      var n := |all| - 1;
      var init := all[..n];
      match FilterEnabled(init, enabled, apply)
      case Err(e) => Err(e)
      case Ok(acc) =>
        if all[n].0 !in enabled then Ok(acc)
        else match apply(all[n].1)
          case Err(e) => Err(e)
          case Ok(c) => Ok(Put(acc, all[n].0, c))
  }

  /** Filtering fails exactly when applying the overrides of some enabled rule fails. */
  lemma {:induction false} FilterEnabledOk(all: Rules, enabled: seq<string>, apply: Value -> Result<Value, Error>)
    ensures FilterEnabled(all, enabled, apply).Ok?
            <==> forall i :: 0 <= i < |all| && all[i].0 in enabled ==> apply(all[i].1).Ok?
  {
    if all != [] {
      var n := |all| - 1;
      FilterEnabledOk(all[..n], enabled, apply);
      assert forall i :: 0 <= i < n ==> all[..n][i] == all[i];
    }
  }

  /** Every enabled rule of the merge is kept, with its overridden configuration; nothing else is. */
  lemma {:induction false} FilterEnabledGet(all: Rules, enabled: seq<string>, apply: Value -> Result<Value, Error>, k: string)
    requires FilterEnabled(all, enabled, apply).Ok?
    ensures Get(FilterEnabled(all, enabled, apply).value, k).Some? <==> k in enabled && HasKey(all, k)
    ensures Get(FilterEnabled(all, enabled, apply).value, k).Some?
            ==> Ok(Get(FilterEnabled(all, enabled, apply).value, k).value) == apply(all[LastIndex(all, k)].1)
  {
    if all != [] {
      var n := |all| - 1;
      var init := all[..n];
      FilterEnabledGet(init, enabled, apply, k);
      assert Keys(all) == Keys(init) + [all[n].0] by { KeysSplit(all, n); }
      var acc := FilterEnabled(init, enabled, apply).value;
      if all[n].0 in enabled {
        PutGet(acc, all[n].0, apply(all[n].1).value, k);
      }
    }
  }

  /** The position of the last entry under `k`; for a mapping with distinct keys, its only one. */
  function LastIndex(all: Rules, k: string): (i: nat)
    requires HasKey(all, k)
    ensures i < |all| && all[i].0 == k
    ensures forall j :: i < j < |all| ==> all[j].0 != k
  {
    var n := |all| - 1;
    if all[n].0 == k then n
    else
      assert Keys(all) == Keys(all[..n]) + [all[n].0] by { KeysSplit(all, n); }
      LastIndex(all[..n], k)
  }

  /** In a mapping with distinct keys the last entry under `k` is the one `get` finds. */
  lemma LastIndexGet(all: Rules, k: string)
    requires UniqueKeys(all) && HasKey(all, k)
    ensures Get(all, k) == Some(all[LastIndex(all, k)].1)
  {
    var i :| 0 <= i < |all| && all[i] == (k, Get(all, k).value);
    assert i == LastIndex(all, k);
  }

  /** `_apply_file_overrides(_, filename)` as a function on rule configurations. */
  function Overrider(filename: string): Value -> Result<Value, Error> {
    ruleConfig => FileOverrides(ruleConfig, Glob.Matcher(filename))
  }

  /** The filtering loop of `load_rules_for_file`. */
  method FilterEnabledRules(all: Rules, enabled: seq<string>, filename: string) returns (r: Result<Rules, Error>)
    ensures r == FilterEnabled(all, enabled, Overrider(filename))
  {
    var filtered: Rules := [];
    var i := 0;
    while i < |all|
      invariant 0 <= i <= |all|
      invariant FilterEnabled(all[..i], enabled, Overrider(filename)) == Ok(filtered)
    {
      assert all[..i + 1][..i] == all[..i];
      if all[i].0 in enabled {
        var finalConfig := ApplyFileOverrides(all[i].1, filename);
        if finalConfig.Err? {
          FilterEnabledFails(all, enabled, Overrider(filename), i);
          return Err(finalConfig.error);
        }
        filtered := Put(filtered, all[i].0, finalConfig.value);
      }
      i := i + 1;
    }
    assert all[..i] == all;
    r := Ok(filtered);
  }

  /** The first failing enabled rule's error is the one raised. */
  lemma {:induction false} FilterEnabledFails(all: Rules, enabled: seq<string>, apply: Value -> Result<Value, Error>, i: nat)
    requires i < |all| && all[i].0 in enabled && apply(all[i].1).Err?
    requires FilterEnabled(all[..i], enabled, apply).Ok?
    ensures FilterEnabled(all, enabled, apply) == Err(apply(all[i].1).error)
    decreases |all|
  {
    var n := |all| - 1;
    if i < n {
      assert all[..n][..i] == all[..i];
      FilterEnabledFails(all[..n], enabled, apply, i);
    } else {
      assert all[..n] == all[..i];
    }
  }

  // ---------------------------------------------------------------------
  // Accessors
  // ---------------------------------------------------------------------

  /** `get_rule_prompt` */
  function RulePrompt(ruleName: string, ruleConfig: Rules): (r: Value)
    ensures HasKey(ruleConfig, "prompt") ==> Some(r) == Get(ruleConfig, "prompt")
    ensures !HasKey(ruleConfig, "prompt") ==> r == Str("Review for " + ruleName + " issues")
  {
    GetOr(ruleConfig, "prompt", Str("Review for " + ruleName + " issues"))
  }

  /** `get_rule_severity` */
  function RuleSeverity(ruleName: string, ruleConfig: Rules): (r: Value)
    ensures HasKey(ruleConfig, "severity") ==> Some(r) == Get(ruleConfig, "severity")
    ensures !HasKey(ruleConfig, "severity") ==> r == Str("warning")
  {
    GetOr(ruleConfig, "severity", Str("warning"))
  }

  /** `is_rule_enabled` */
  function RuleEnabled(ruleName: string, ruleConfig: Rules): (r: Value)
    ensures HasKey(ruleConfig, "enabled") ==> Some(r) == Get(ruleConfig, "enabled")
    ensures !HasKey(ruleConfig, "enabled") ==> r == Bool(true)
  {
    GetOr(ruleConfig, "enabled", Bool(true))
  }

  /** `get_context_prompt`: the prompt for `context`, if the rule declares one. */
  function ContextPrompt(context: string, ruleConfig: Rules): (r: Result<Option<Value>, Error>)
    ensures !HasKey(ruleConfig, "context_prompts") ==> r == Ok(None)
    ensures r.Err? <==> exists v :: Get(ruleConfig, "context_prompts") == Some(v) && !v.Obj?
    ensures r.Err? ==> Get(ruleConfig, "context_prompts").Some? && r.error == NoAttribute(PyType(Get(ruleConfig, "context_prompts").value), "get")
    ensures r.Ok? && r.value.Some? ==> exists ps :: Get(ruleConfig, "context_prompts") == Some(Obj(ps)) && Get(ps, context) == r.value
  {
    var prompts: Option<Value> := Get(ruleConfig, "context_prompts");
    match prompts
    case None => Ok(None)
    case Some(Obj(prompts)) => Ok(Get(prompts, context))
    case Some(v) => Err(NoAttribute(PyType(v), "get"))
  }

  // ---------------------------------------------------------------------
  // Template validation
  // ---------------------------------------------------------------------

  const Severities: seq<Value> := [Str("error"), Str("warning"), Str("info"), Str("suggestion")]

  /** The errors reported for one rule of a template. */
  function RuleErrors(ruleName: string, ruleConfig: Value): seq<string> {
    if !ruleConfig.Obj? then ["Rule '" + ruleName + "' must be a dictionary"]
    else
      var severity := GetOr(ruleConfig.fields, "severity", Str("warning"));
      (if HasKey(ruleConfig.fields, "prompt") then [] else ["Rule '" + ruleName + "' missing 'prompt' field"])
      + (if severity in Severities then [] else ["Rule '" + ruleName + "' has invalid severity: " + Show(severity)])
  }

  function RuleEntryErrors(entry: (string, Value)): seq<string> {
    RuleErrors(entry.0, entry.1)
  }

  /** The error reported for one file pattern. */
  function PatternErrors(pattern: Value): seq<string> {
    if pattern.Str? then [] else ["File pattern must be string: " + Show(pattern)]
  }

  /** The errors of each item in turn, in order. */
  function AllErrors<T>(items: seq<T>, errorsOf: T -> seq<string>): seq<string> {
    if items == [] then []
    else
      var n := |items| - 1;
      AllErrors(items[..n], errorsOf) + errorsOf(items[n])
  }

  /** No error at all exactly when no item has an error. */
  lemma {:induction false} AllErrorsEmpty<T>(items: seq<T>, errorsOf: T -> seq<string>)
    ensures AllErrors(items, errorsOf) == [] <==> forall i :: 0 <= i < |items| ==> errorsOf(items[i]) == []
  {
    if items != [] {
      var n := |items| - 1;
      AllErrorsEmpty(items[..n], errorsOf);
      assert forall i :: 0 <= i < n ==> items[..n][i] == items[i];
    }
  }

  /** The `name` check. */
  function NameErrors(data: Rules): seq<string> {
    if HasKey(data, "name") then [] else ["Template missing 'name' field"]
  }

  /** The `rules` check, given `template_data.get('rules')`. */
  function RulesFieldErrors(rules: Option<Value>): seq<string> {
    match rules
    case None => ["Template missing 'rules' field"]
    case Some(Obj(entries)) => AllErrors(entries, RuleEntryErrors)
    case Some(_) => ["'rules' field must be a dictionary"]
  }

  /** The `file_patterns` check, given `template_data.get('file_patterns')`. */
  function PatternsFieldErrors(patterns: Option<Value>): seq<string> {
    match patterns
    case None => []
    case Some(Arr(items)) => AllErrors(items, PatternErrors)
    case Some(_) => ["'file_patterns' must be a list"]
  }

  /** The errors `validate_rule_template` reports, in the order it reports them. */
  function TemplateErrors(data: Rules): seq<string> {
    NameErrors(data) + RulesFieldErrors(Get(data, "rules")) + PatternsFieldErrors(Get(data, "file_patterns"))
  }

  /** A rule is a mapping with a prompt and, if it has a severity, one of the four levels. */
  predicate WellFormedRule(ruleConfig: Value) {
    ruleConfig.Obj? && HasKey(ruleConfig.fields, "prompt") && GetOr(ruleConfig.fields, "severity", Str("warning")) in Severities
  }

  /** A valid `rules` field: a mapping of well-formed rules. */
  predicate WellFormedRules(rules: Option<Value>) {
    match rules
    case Some(Obj(entries)) => forall i :: 0 <= i < |entries| ==> WellFormedRule(entries[i].1)
    case _ => false
  }

  /** A valid `file_patterns` field: absent, or a list of strings. */
  predicate WellFormedPatterns(patterns: Option<Value>) {
    match patterns
    case None => true
    case Some(Arr(items)) => forall i :: 0 <= i < |items| ==> items[i].Str?
    case Some(_) => false
  }

  /** What a valid template is, independently of the messages. */
  predicate WellFormedTemplate(data: Rules) {
    HasKey(data, "name") && WellFormedRules(Get(data, "rules")) && WellFormedPatterns(Get(data, "file_patterns"))
  }

  /** A rule is reported without error exactly when it is well formed. */
  lemma RuleErrorsEmpty(ruleName: string, ruleConfig: Value)
    ensures RuleErrors(ruleName, ruleConfig) == [] <==> WellFormedRule(ruleConfig)
  {
  }

  /** The `rules` field is reported without error exactly when it is well formed. */
  lemma RulesFieldValid(rules: Option<Value>)
    ensures RulesFieldErrors(rules) == [] <==> WellFormedRules(rules)
  {
    if rules.Some? && rules.value.Obj? {
      var entries := rules.value.fields;
      AllErrorsEmpty(entries, RuleEntryErrors);
      forall i | 0 <= i < |entries| ensures RuleEntryErrors(entries[i]) == [] <==> WellFormedRule(entries[i].1) {
        RuleErrorsEmpty(entries[i].0, entries[i].1);
      }
    }
  }

  /** The `file_patterns` field is reported without error exactly when it is well formed. */
  lemma PatternsFieldValid(patterns: Option<Value>)
    ensures PatternsFieldErrors(patterns) == [] <==> WellFormedPatterns(patterns)
  {
    if patterns.Some? && patterns.value.Arr? {
      AllErrorsEmpty(patterns.value.items, PatternErrors);
    }
  }

  /** A template is reported valid exactly when it is well formed. */
  lemma TemplateValidIff(data: Rules)
    ensures TemplateErrors(data) == [] <==> WellFormedTemplate(data)
  {
    RulesFieldValid(Get(data, "rules"));
    PatternsFieldValid(Get(data, "file_patterns"));
  }

  /** The per-rule loop of `validate_rule_template`. */
  method CheckRules(rules: Rules) returns (errors: seq<string>)
    ensures errors == AllErrors(rules, RuleEntryErrors)
  {
    errors := [];
    var i := 0;
    while i < |rules|
      invariant 0 <= i <= |rules|
      invariant errors == AllErrors(rules[..i], RuleEntryErrors)
    {
      assert rules[..i + 1][..i] == rules[..i];
      var ruleName := rules[i].0;
      var ruleConfig := rules[i].1;
      if !ruleConfig.Obj? {
        errors := errors + ["Rule '" + ruleName + "' must be a dictionary"];
      } else {
        if !HasKey(ruleConfig.fields, "prompt") {
          errors := errors + ["Rule '" + ruleName + "' missing 'prompt' field"];
        }
        var severity := GetOr(ruleConfig.fields, "severity", Str("warning"));
        if severity !in Severities {
          errors := errors + ["Rule '" + ruleName + "' has invalid severity: " + Show(severity)];
        }
      }
      i := i + 1;
    }
    assert rules[..i] == rules;
  }

  /** The pattern loop of `validate_rule_template`. */
  method CheckPatterns(patterns: seq<Value>) returns (errors: seq<string>)
    ensures errors == AllErrors(patterns, PatternErrors)
  {
    errors := [];
    var i := 0;
    while i < |patterns|
      invariant 0 <= i <= |patterns|
      invariant errors == AllErrors(patterns[..i], PatternErrors)
    {
      assert patterns[..i + 1][..i] == patterns[..i];
      if !patterns[i].Str? {
        errors := errors + ["File pattern must be string: " + Show(patterns[i])];
      }
      i := i + 1;
    }
    assert patterns[..i] == patterns;
  }

  /** `validate_rule_template`: valid exactly when no error was found, and then exactly when well formed. */
  method ValidateRuleTemplate(data: Rules) returns (valid: bool, errors: seq<string>)
    ensures errors == TemplateErrors(data)
    ensures valid <==> errors == []
    ensures valid <==> WellFormedTemplate(data)
  {
    errors := [];
    if !HasKey(data, "name") {
      errors := errors + ["Template missing 'name' field"];
    }
    var rules := Get(data, "rules");
    if rules.None? {
      errors := errors + ["Template missing 'rules' field"];
    } else if !rules.value.Obj? {
      errors := errors + ["'rules' field must be a dictionary"];
    } else {
      var ruleErrors := CheckRules(rules.value.fields);
      errors := errors + ruleErrors;
    }
    assert errors == NameErrors(data) + RulesFieldErrors(rules);
    var patterns := Get(data, "file_patterns");
    if patterns.Some? {
      if !patterns.value.Arr? {
        errors := errors + ["'file_patterns' must be a list"];
      } else {
        var patternErrors := CheckPatterns(patterns.value.items);
        errors := errors + patternErrors;
      }
    }
    assert errors == NameErrors(data) + RulesFieldErrors(rules) + PatternsFieldErrors(patterns);
    valid := |errors| == 0;
    TemplateValidIff(data);
  }

  /** The `ConfigurationError` raised for an invalid template. */
  function InvalidTemplate(errors: seq<string>): Error {
    ConfigurationError("Invalid template: " + Join(errors, "; "))
  }

  // ---------------------------------------------------------------------
  // The processor and its template cache
  // ---------------------------------------------------------------------

  class RuleProcessor {
    /** `review.enabled_rules` of the configuration. */
    const enabledRules: seq<string>
    /** `_template_cache`: template name to its `rules`. */
    var cache: map<string, Value>

    constructor(enabledRules: seq<string>)
      ensures this.enabledRules == enabledRules && cache == map[]
    {
      this.enabledRules := enabledRules;
      cache := map[];
    }

    /** `_load_rule_template`, searching the locations in order. */
    method LoadRuleTemplate(store: TemplateStore, name: string) returns (r: Result<Value, Error>)
      modifies this
      ensures (r, cache) == LoadTemplate(old(cache), store, name)
    {
      if name in cache {
        return Ok(cache[name]);
      }
      var outcomes := store(name);
      var data: Option<Value> := None;
      var i := 0;
      while i < |outcomes| && data.None?
        invariant 0 <= i <= |outcomes|
        invariant data.None? ==> FirstRead(outcomes[i..]) == FirstRead(outcomes)
        invariant data.Some? ==> data == FirstRead(outcomes)
      {
        assert outcomes[i..][1..] == outcomes[i + 1..];
        if outcomes[i].Read? {
          data := Some(outcomes[i].data);
        }
        i := i + 1;
      }
      if data.None? || data.value == Null {
        return Ok(EmptyObj);
      }
      if !data.value.Obj? {
        return Err(NoAttribute(PyType(data.value), "get"));
      }
      var rules := GetOr(data.value.fields, "rules", EmptyObj);
      cache := cache[name := rules];
      r := Ok(rules);
    }

    /** The loading loop of `load_rules_for_file`: the merged rules of the templates that loaded. */
    method LoadTemplates(store: TemplateStore, names: seq<string>) returns (all: Rules)
      modifies this
      ensures cache == LoadAll(old(cache), store, names).0
      ensures all == MergedRules(LoadAll(old(cache), store, names).1)
    {
      all := [];
      ghost var results: seq<Result<Value, Error>> := [];
      var i := 0;
      while i < |names|
        invariant 0 <= i <= |names|
        invariant (cache, results) == LoadAll(old(cache), store, names[..i])
        invariant all == MergedRules(results)
      {
        LoadAllStep(old(cache), store, names, i);
        var templateRules := LoadRuleTemplate(store, names[i]);
        MergedRulesStep(results, templateRules);
        results := results + [templateRules];
        if templateRules.Ok? && Truthy(templateRules.value) && templateRules.value.Obj? {
          all := Update(all, templateRules.value.fields);
        }
        i := i + 1;
      }
      assert names[..i] == names;
    }

    /** `load_rules_for_file`: the enabled rules of the merged templates, with file overrides applied. */
    method LoadRulesForFile(store: TemplateStore, filename: string, names: seq<string>) returns (r: Result<Rules, Error>)
      modifies this
      ensures cache == LoadAll(old(cache), store, names).0
      ensures r == FilterEnabled(MergedRules(LoadAll(old(cache), store, names).1), enabledRules, Overrider(filename))
    {
      var all := LoadTemplates(store, names);
      r := FilterEnabledRules(all, enabledRules, filename);
    }

    /**
     * `create_rule_template`: an invalid template raises; a valid one is
     * written (`written` is whether the write succeeded) and, when written,
     * its name is dropped from the cache so the next load reads it afresh.
     */
    method CreateRuleTemplate(name: string, data: Rules, written: bool) returns (r: Result<bool, Error>)
      modifies this
      ensures r.Err? <==> !WellFormedTemplate(data)
      ensures r.Err? ==> r.error == InvalidTemplate(TemplateErrors(data)) && cache == old(cache)
      ensures r.Ok? ==> r.value == written && cache == if written then old(cache) - {name} else old(cache)
    {
      var valid, errors := ValidateRuleTemplate(data);
      if !valid {
        return Err(InvalidTemplate(errors));
      }
      if !written {
        return Ok(false);
      }
      if name in cache {
        cache := cache - {name};
      }
      return Ok(true);
    }

    /** `clear_template_cache` */
    method ClearTemplateCache()
      modifies this
      ensures cache == map[]
    {
      cache := map[];
    }
  }
}
