/** `ConfigurationManager`: a tree of JSON-like settings addressed by dotted keys, with
    defaults, lookup with a fallback, assignment that creates missing sections, and the
    merge applied to a loaded configuration file. */
module Configuration {
  import opened Wrappers
  import opened KeyPath

  /** A JSON value as `json.load` produces it; `Null` is Python's `None`. */
  datatype Value =
    | Null
    | Bool(b: bool)
    | Int(i: int)
    | Real(r: real)
    | Str(s: string)
    | List(items: seq<Value>)
    | Dict(entries: map<string, Value>)

  /** `_initialize_default_config`: the seven default sections. */
  function DefaultConfig(): map<string, Value>
  {
    map[
      "general" := Dict(GeneralDefaults()),
      "workflow" := Dict(WorkflowDefaults()),
      "optimization" := Dict(OptimizationDefaults()),
      "offset" := Dict(OffsetDefaults()),
      "export" := Dict(ExportDefaults()),
      "performance" := Dict(PerformanceDefaults()),
      "logging" := Dict(LoggingDefaults())
    ]
  }

  /** The default `general` section. */
  function GeneralDefaults(): map<string, Value>
  {
    map[
      "language" := Str("ko"),
      "theme" := Str("default"),
      "auto_save" := Bool(true),
      "max_recent_files" := Int(10)
    ]
  }

  /** The default `workflow` section. */
  function WorkflowDefaults(): map<string, Value>
  {
    map[
      "auto_advance" := Bool(false),
      "show_progress" := Bool(true),
      "enable_validation" := Bool(true),
      "enable_auto_save" := Bool(true)
    ]
  }

  /** The default `optimization` section. */
  function OptimizationDefaults(): map<string, Value>
  {
    map[
      "default_optimization_level" := Str("medium"),
      "default_smoothing_factor" := Real(0.5),
      "default_simplification_threshold" := Real(0.01),
      "quality_threshold" := Real(0.8)
    ]
  }

  /** The default `offset` section. */
  function OffsetDefaults(): map<string, Value>
  {
    map[
      "default_offset_mode" := Str("arc_segment"),
      "default_falloff_radius" := Real(10.0),
      "default_max_influences" := Int(4),
      "default_volume_strength" := Real(1.0),
      "default_slide_effect" := Real(0.0),
      "default_rotation_distribution" := Real(0.5),
      "default_scale_distribution" := Real(0.5),
      "default_twist_distribution" := Real(0.5),
      "default_axial_sliding" := Real(0.0),
      "enable_parallel_processing" := Bool(true),
      "enable_debug_display" := Bool(false)
    ]
  }

  /** The default `export` section. */
  function ExportDefaults(): map<string, Value>
  {
    map[
      "default_format" := Str("svg"),
      "include_metadata" := Bool(true),
      "output_directory" := Str("output"),
      "filename_template" := Str("{original_name}_processed_{timestamp}")
    ]
  }

  /** The default `performance` section. */
  function PerformanceDefaults(): map<string, Value>
  {
    map[
      "max_memory_usage" := Str("2GB"),
      "enable_parallel_processing" := Bool(true),
      "thread_count" := Int(4),
      "cache_size" := Str("100MB")
    ]
  }

  /** The default `logging` section. */
  function LoggingDefaults(): map<string, Value>
  {
    map[
      "level" := Str("INFO"),
      "file_enabled" := Bool(true),
      "console_enabled" := Bool(true),
      "max_file_size" := Str("10MB"),
      "backup_count" := Int(5)
    ]
  }

  /** Following `path` from `v` with `value = value[k]`: `None` where Python raises
      `KeyError` (a missing key) or `TypeError` (indexing a value that is not a
      dictionary). */
  function Lookup(v: Value, path: seq<string>): (r: Option<Value>)
    ensures |path| > 0 && !v.Dict? ==> r.None?
    decreases |path|
  {
    if |path| == 0 then Some(v)
    else if v.Dict? && path[0] in v.entries then Lookup(v.entries[path[0]], path[1..])
    else None
  }

  /** The value `get_config(key, default)` returns, or the `ConfigurationError` it raises:
      the value stored under the key, else a default other than `None`. */
  function Get(config: map<string, Value>, key: string, default: Value): (r: Result<Value, string>)
    ensures r.Err? <==> Lookup(Dict(config), Split(key)).None? && default == Null
    ensures r.Ok? && Lookup(Dict(config), Split(key)).None? ==> r.value == default
    ensures Lookup(Dict(config), Split(key)).Some? ==> r == Ok(Lookup(Dict(config), Split(key)).value)
  {
    match Lookup(Dict(config), Split(key))
    case Some(v) => Ok(v)
    case None => if default != Null then Ok(default) else Err("configuration key not found: " + key)
  }

  /** The dictionary reached by the walk of `set_config` is not a dictionary: some proper,
      non-empty prefix of the path leads to a value that is not one. */
  ghost predicate Blocked(root: map<string, Value>, path: seq<string>)
  {
    exists j :: 1 <= j < |path| && Lookup(Dict(root), path[..j]).Some? && !Lookup(Dict(root), path[..j]).value.Dict?
  }

  /** The new configuration after `set_config(key, value)` walks `path`: missing sections
      are created as empty dictionaries on the way; `None` where the walk meets a value that
      is not a dictionary and Python raises, so that `set_config` returns `False`. */
  function Assign(root: map<string, Value>, path: seq<string>, v: Value): (r: Option<map<string, Value>>)
    requires |path| >= 1
    ensures r.Some? ==> r.value.Keys == root.Keys + {path[0]}
    decreases |path|
  {
    var k := path[0];
    if |path| == 1 then Some(root[k := v])
    else
      var child := if k in root then root[k] else Dict(map[]);
      if !child.Dict? then None
      else
        match Assign(child.entries, path[1..], v)
        case Some(sub) => Some(root[k := Dict(sub)])
        case None => None
  }

  /** After a successful assignment the path leads to the assigned value. */
  lemma {:induction false} AssignThenLookup(root: map<string, Value>, path: seq<string>, v: Value)
    requires |path| >= 1 && Assign(root, path, v).Some?
    ensures Lookup(Dict(Assign(root, path, v).value), path) == Some(v)
    decreases |path|
  {
    if |path| > 1 {
      var k := path[0];
      var child := if k in root then root[k] else Dict(map[]);
      AssignThenLookup(child.entries, path[1..], v);
    }
  }

  /** The assignment fails exactly when the walk is blocked by a value that is not a
      dictionary. */
  lemma {:induction false} AssignFailsIffBlocked(root: map<string, Value>, path: seq<string>, v: Value)
    requires |path| >= 1
    ensures Assign(root, path, v).None? <==> Blocked(root, path)
    decreases |path|
  {
    if |path| > 1 {
      var k := path[0];
      var child := if k in root then root[k] else Dict(map[]);
      assert path[..1] == [k];
      assert Lookup(Dict(root), path[..1]) == if k in root then Some(root[k]) else None;
      if !child.Dict? {
        assert Blocked(root, path);
      } else {
        AssignFailsIffBlocked(child.entries, path[1..], v);
        if Blocked(root, path) {
          var j :| 1 <= j < |path| && Lookup(Dict(root), path[..j]).Some? && !Lookup(Dict(root), path[..j]).value.Dict?;
          assert j > 1;
          assert k in root;
          assert path[..j][1..] == path[1..][..j - 1];
          assert Lookup(Dict(child.entries), path[1..][..j - 1]) == Lookup(Dict(root), path[..j]);
          assert Blocked(child.entries, path[1..]);
        }
        if Blocked(child.entries, path[1..]) {
          var j :| 1 <= j < |path[1..]| && Lookup(Dict(child.entries), path[1..][..j]).Some?
                   && !Lookup(Dict(child.entries), path[1..][..j]).value.Dict?;
          if k in root {
            assert path[..j + 1][1..] == path[1..][..j];
            assert Lookup(Dict(root), path[..j + 1]) == Lookup(Dict(child.entries), path[1..][..j]);
            assert Blocked(root, path);
          } else {
            assert false;
          }
        }
      }
    }
  }

  /** Two paths part ways: at some position both still have a key and the keys differ,
      after an identical prefix. */
  ghost predicate Diverge(p: seq<string>, q: seq<string>)
  {
    exists j :: 0 <= j < |p| && j < |q| && p[..j] == q[..j] && p[j] != q[j]
  }

  /** An assignment leaves the lookup of every path that parts ways with the assigned one
      unchanged. */
  lemma {:induction false} AssignLeavesOthers(root: map<string, Value>, path: seq<string>, v: Value, other: seq<string>)
    requires |path| >= 1 && Assign(root, path, v).Some? && Diverge(path, other)
    ensures Lookup(Dict(Assign(root, path, v).value), other) == Lookup(Dict(root), other)
    decreases |path|
  {
    var r := Assign(root, path, v).value;
    var k := path[0];
    var j :| 0 <= j < |path| && j < |other| && path[..j] == other[..j] && path[j] != other[j];
    if other[0] != k {
      assert other[0] in r <==> other[0] in root;
      if other[0] in root {
        assert r[other[0]] == root[other[0]];
      }
    } else {
      assert j > 0 && |path| > 1;
      var child := if k in root then root[k] else Dict(map[]);
      var sub := Assign(child.entries, path[1..], v).value;
      assert r[k] == Dict(sub);
      assert path[1..][..j - 1] == path[..j][1..] == other[..j][1..] == other[1..][..j - 1];
      assert Diverge(path[1..], other[1..]);
      AssignLeavesOthers(child.entries, path[1..], v, other[1..]);
      if k !in root {
        assert |other[1..]| > 0;
      }
    }
  }

  /** A key whose value was set can be read back with `get_config`. */
  lemma GetAfterSet(config: map<string, Value>, key: string, v: Value, default: Value)
    requires Assign(config, Split(key), v).Some?
    ensures Get(Assign(config, Split(key), v).value, key, default) == Ok(v)
  {
    AssignThenLookup(config, Split(key), v);
  }

  /** Setting a key leaves what `get_config` returns for every key that parts ways with it
      unchanged. */
  lemma SetLeavesOtherKeys(config: map<string, Value>, key: string, v: Value, other: string, default: Value)
    requires Assign(config, Split(key), v).Some? && Diverge(Split(key), Split(other))
    ensures Get(Assign(config, Split(key), v).value, other, default) == Get(config, other, default)
  {
    AssignLeavesOthers(config, Split(key), v, Split(other));
  }

  /** Reading `section.key` for plain names: the entry stored in the section when there is
      one, else the caller's default unless that is `None`. */
  lemma GetSectionKey(config: map<string, Value>, section: string, key: string, default: Value)
    requires '.' !in section && '.' !in key
    requires section in config && config[section].Dict?
    ensures key in config[section].entries ==> Get(config, section + "." + key, default) == Ok(config[section].entries[key])
    ensures key !in config[section].entries && default != Null ==> Get(config, section + "." + key, default) == Ok(default)
    ensures key !in config[section].entries && default == Null ==> Get(config, section + "." + key, default).Err?
  {
    SplitPrefix(section, key);
    SplitPlain(key);
    LookupSectionEntry(config, [section, key]);
  }

  /** A path of two parts names an entry of a section. */
  lemma LookupSectionEntry(config: map<string, Value>, path: seq<string>)
    requires |path| == 2 && path[0] in config && config[path[0]].Dict?
    ensures Lookup(Dict(config), path)
         == if path[1] in config[path[0]].entries then Some(config[path[0]].entries[path[1]]) else None
  {
    var section, rest := config[path[0]], path[1..];
    assert Lookup(Dict(config), path) == Lookup(section, rest);
    assert rest[1..] == [];
    if path[1] in section.entries {
      assert Lookup(section, rest) == Lookup(section.entries[path[1]], rest[1..]);
    }
  }

  /** Reading a default that is present. */
  lemma DefaultLanguage()
    ensures Get(DefaultConfig(), "general.language", Null) == Ok(Str("ko"))
  {
    GeneralSection();
    GetSectionKey(DefaultConfig(), "general", "language", Null);
    assert "general" + "." + "language" == "general.language";
  }

  /** A missing key with a falsy default other than `None` returns that default. */
  lemma FalsyDefaultReturned()
    ensures Get(DefaultConfig(), "general.missing", Int(0)) == Ok(Int(0))
  {
    GeneralSection();
    GetSectionKey(DefaultConfig(), "general", "missing", Int(0));
    assert "general" + "." + "missing" == "general.missing";
  }

  /** The `general` section of the defaults. */
  lemma GeneralSection()
    ensures "general" in DefaultConfig() && DefaultConfig()["general"] == Dict(GeneralDefaults())
    ensures "language" in GeneralDefaults() && GeneralDefaults()["language"] == Str("ko")
    ensures "missing" !in GeneralDefaults()
  {
  }

  /** A path that continues below a value that is not a dictionary leads nowhere. */
  lemma {:induction false} LookupBelowLeaf(v: Value, p: seq<string>, q: seq<string>)
    requires Lookup(v, p).Some? && !Lookup(v, p).value.Dict? && |q| > 0
    ensures Lookup(v, p + q).None?
    decreases |p|
  {
    if |p| > 0 {
      assert (p + q)[0] == p[0] && (p + q)[1..] == p[1..] + q;
      LookupBelowLeaf(v.entries[p[0]], p[1..], q);
    }
  }

  /** A key that continues below a stored value that is not a dictionary (Python's
      `TypeError`) raises without a default and returns a default other than `None`. */
  lemma GetBelowLeaf(config: map<string, Value>, key: string, j: nat, default: Value)
    requires j < |Split(key)|
    requires Lookup(Dict(config), Split(key)[..j]).Some? && !Lookup(Dict(config), Split(key)[..j]).value.Dict?
    ensures default == Null ==> Get(config, key, default).Err?
    ensures default != Null ==> Get(config, key, default) == Ok(default)
  {
    var keys := Split(key);
    assert keys == keys[..j] + keys[j..];
    LookupBelowLeaf(Dict(config), keys[..j], keys[j..]);
  }

  /** The iteration order of dictionaries: `order(m)` lists the keys of `m` in the order
      `items()` yields them (the insertion order of the loaded JSON object). */
  type Ordering = map<string, Value> -> seq<string>

  /** An ordering lists every key of every dictionary exactly once. */
  ghost predicate InsertionOrder(order: Ordering)
  {
    forall m: map<string, Value> ::
      (forall k :: k in order(m) <==> k in m) &&
      (forall i, j :: 0 <= i < j < |order(m)| ==> order(m)[i] != order(m)[j])
  }

  /** `_merge_config(new_config)` as written: each entry either replaces the root entry of
      the same key or, when both are dictionaries, is merged recursively, and the recursive
      call again merges into the root. */
  function MergeAsWritten(root: map<string, Value>, newConfig: Value, order: Ordering): map<string, Value>
    requires newConfig.Dict?
    decreases newConfig, 1
  {
    MergeEntries(root, newConfig, order(newConfig.entries), order)
  }

  /** The loop of `_merge_config` over the keys still to visit. */
  function MergeEntries(root: map<string, Value>, newConfig: Value, keys: seq<string>, order: Ordering): map<string, Value>
    requires newConfig.Dict?
    decreases newConfig, 0, |keys|
  {
    if |keys| == 0 then root
    else
      var key := keys[0];
      var next :=
        if key !in newConfig.entries then root
        else if key in root && root[key].Dict? && newConfig.entries[key].Dict? then
          MergeAsWritten(root, newConfig.entries[key], order)
        else root[key := newConfig.entries[key]];
      MergeEntries(next, newConfig, keys[1..], order)
  }

  /** Every key that occurs in a value, at any depth of nested dictionaries. */
  function Keys(v: Value): (r: set<string>)
    ensures v.Dict? ==> v.entries.Keys <= r
    decreases v
  {
    if v.Dict? then
      v.entries.Keys + set k, x | k in v.entries && x in Keys(v.entries[k]) :: x
    else {}
  }

  /** The keys of a nested dictionary are keys of the dictionary holding it. */
  lemma KeysOfChild(v: Value, k: string)
    requires v.Dict? && k in v.entries
    ensures Keys(v.entries[k]) <= Keys(v)
  {
  }

  /** The merge only touches root entries whose key occurs somewhere in the new
      configuration. */
  lemma {:induction false} MergeEntriesFrame(root: map<string, Value>, newConfig: Value, keys: seq<string>, order: Ordering, k: string)
    requires newConfig.Dict? && k !in Keys(newConfig)
    ensures var r := MergeEntries(root, newConfig, keys, order);
      (k in r <==> k in root) && (k in root ==> r[k] == root[k])
    decreases newConfig, 0, |keys|
  {
    if |keys| > 0 {
      var key := keys[0];
      var next :=
        if key !in newConfig.entries then root
        else if key in root && root[key].Dict? && newConfig.entries[key].Dict? then
          MergeAsWritten(root, newConfig.entries[key], order)
        else root[key := newConfig.entries[key]];
      if key in newConfig.entries && key in root && root[key].Dict? && newConfig.entries[key].Dict? {
        KeysOfChild(newConfig, key);
        MergeEntriesFrame(root, newConfig.entries[key], order(newConfig.entries[key].entries), order, k);
      }
      MergeEntriesFrame(next, newConfig, keys[1..], order, k);
    }
  }

  /** The merge only touches root entries whose key occurs somewhere in the new
      configuration. */
  lemma MergeFrame(root: map<string, Value>, newConfig: Value, order: Ordering, k: string)
    requires newConfig.Dict? && k !in Keys(newConfig)
    ensures var r := MergeAsWritten(root, newConfig, order);
      (k in r <==> k in root) && (k in root ==> r[k] == root[k])
  {
    MergeEntriesFrame(root, newConfig, order(newConfig.entries), order, k);
  }

  /** Merging keeps every root key and adds every visited key of the new configuration at
      the root. */
  lemma {:induction false} MergeEntriesKeys(root: map<string, Value>, newConfig: Value, keys: seq<string>, order: Ordering)
    requires newConfig.Dict?
    ensures var r := MergeEntries(root, newConfig, keys, order);
      root.Keys <= r.Keys && forall i :: 0 <= i < |keys| && keys[i] in newConfig.entries ==> keys[i] in r
    decreases newConfig, 0, |keys|
  {
    if |keys| > 0 {
      var key := keys[0];
      var next :=
        if key !in newConfig.entries then root
        else if key in root && root[key].Dict? && newConfig.entries[key].Dict? then
          MergeAsWritten(root, newConfig.entries[key], order)
        else root[key := newConfig.entries[key]];
      if key in newConfig.entries && key in root && root[key].Dict? && newConfig.entries[key].Dict? {
        var child := newConfig.entries[key];
        MergeEntriesKeys(root, child, order(child.entries), order);
      }
      MergeEntriesKeys(next, newConfig, keys[1..], order);
      assert forall i :: 1 <= i < |keys| ==> keys[i] == keys[1..][i - 1];
    }
  }

  /** After the merge the root holds its old keys and every top-level key of the new
      configuration. */
  lemma MergeKeys(root: map<string, Value>, newConfig: Value, order: Ordering)
    requires newConfig.Dict? && InsertionOrder(order)
    ensures root.Keys + newConfig.entries.Keys <= MergeAsWritten(root, newConfig, order).Keys
  {
    var keys := order(newConfig.entries);
    MergeEntriesKeys(root, newConfig, keys, order);
    forall k | k in newConfig.entries ensures k in MergeAsWritten(root, newConfig, order) {
      var i :| 0 <= i < |keys| && keys[i] == k;
    }
  }

  /** A dictionary with a single key is iterated as that key alone. */
  lemma SingleKeyOrder(order: Ordering, k: string, v: Value)
    requires InsertionOrder(order)
    ensures order(map[k := v]) == [k]
  {
    var s := order(map[k := v]);
    assert k in s;
    assert forall x :: x in s ==> x == k;
    DistinctSingleton(s, k);
  }

  /** A sequence without repetitions whose every element is `k` has at most one
      element. */
  lemma DistinctSingleton(s: seq<string>, k: string)
    requires forall x :: x in s ==> x == k
    requires forall i, j :: 0 <= i < j < |s| ==> s[i] != s[j]
    ensures |s| <= 1
  {
    FirstTwo(s);
  }

  lemma FirstTwo(s: seq<string>)
    ensures |s| >= 2 ==> s[0] in s && s[1] in s
  {
  }

  /** The merge does not descend: merging `{k: section}` into a root whose entry `k` is a
      dictionary is merging `section` itself into the root. */
  lemma MergeSectionIsMergeAtRoot(root: map<string, Value>, k: string, section: map<string, Value>, order: Ordering)
    requires InsertionOrder(order) && k in root && root[k].Dict?
    ensures MergeAsWritten(root, Dict(map[k := Dict(section)]), order) == MergeAsWritten(root, Dict(section), order)
  {
    var newConfig := Dict(map[k := Dict(section)]);
    SingleKeyOrder(order, k, Dict(section));
    assert newConfig.entries[k] == Dict(section);
    assert MergeEntries(root, newConfig, [k], order)
        == MergeEntries(MergeAsWritten(root, Dict(section), order), newConfig, [], order);
  }

  /** A loaded configuration file holding `{"general": {"theme": "dark"}}`. */
  const ThemeFile: Value := Dict(map["general" := Dict(map["theme" := Str("dark")])])

  /** Loading that file into a configuration with a `general` section leaves
      `general.theme` as it was and sets a top-level `theme` instead. */
  lemma LoadedThemeAsWritten(root: map<string, Value>, order: Ordering)
    requires InsertionOrder(order) && "general" in root && root["general"].Dict?
    ensures MergeAsWritten(root, ThemeFile, order) == root["theme" := Str("dark")]
    ensures Lookup(Dict(MergeAsWritten(root, ThemeFile, order)), ["general", "theme"])
         == Lookup(Dict(root), ["general", "theme"])
  {
    MergeSectionIsMergeAtRoot(root, "general", map["theme" := Str("dark")], order);
    SingleKeyOrder(order, "theme", Str("dark"));
  }

  /** The evidently intended recursive merge: an entry of the overlay replaces the base
      entry, except that two dictionaries under the same key are merged with each other. */
  function DeepMerge(base: map<string, Value>, overlay: Value): (r: map<string, Value>)
    requires overlay.Dict?
    ensures r.Keys == base.Keys + overlay.entries.Keys
    decreases overlay
  {
    map k | k in base.Keys + overlay.entries.Keys ::
      if k !in overlay.entries then base[k]
      else if k in base && base[k].Dict? && overlay.entries[k].Dict? then Dict(DeepMerge(base[k].entries, overlay.entries[k]))
      else overlay.entries[k]
  }

  /** Every non-dictionary value of the overlay is found at its own path in the merge. */
  lemma {:induction false} DeepMergeTakesOverlay(base: map<string, Value>, overlay: Value, path: seq<string>, v: Value)
    requires overlay.Dict? && |path| >= 1 && Lookup(overlay, path) == Some(v) && !v.Dict?
    ensures Lookup(Dict(DeepMerge(base, overlay)), path) == Some(v)
    decreases |path|
  {
    var k := path[0];
    var merged := DeepMerge(base, overlay);
    var child := overlay.entries[k];
    if |path| > 1 && k in base && base[k].Dict? && child.Dict? {
      DeepMergeTakesOverlay(base[k].entries, child, path[1..], v);
      assert merged[k] == Dict(DeepMerge(base[k].entries, child));
    } else {
      assert merged[k] == child;
    }
  }

  /** The path leaves the overlay's tree: at some depth the key is missing from a
      dictionary of the overlay, and every key before it leads to a dictionary. */
  ghost predicate AbsentIn(m: map<string, Value>, path: seq<string>)
    decreases |path|
  {
    |path| >= 1 && (path[0] !in m || (m[path[0]].Dict? && AbsentIn(m[path[0]].entries, path[1..])))
  }

  /** Every base value whose path the overlay does not cover survives the merge. */
  lemma {:induction false} DeepMergeKeepsBase(base: map<string, Value>, overlay: Value, path: seq<string>, v: Value)
    requires overlay.Dict? && AbsentIn(overlay.entries, path) && Lookup(Dict(base), path) == Some(v)
    ensures Lookup(Dict(DeepMerge(base, overlay)), path) == Some(v)
    decreases |path|
  {
    var k := path[0];
    var merged := DeepMerge(base, overlay);
    if k !in overlay.entries {
      assert merged[k] == base[k];
    } else {
      var child := overlay.entries[k];
      assert |path| > 1;
      assert base[k].Dict?;
      assert merged[k] == Dict(DeepMerge(base[k].entries, child));
      DeepMergeKeepsBase(base[k].entries, child, path[1..], v);
    }
  }

  /** With the intended merge the same file sets `general.theme`, keeps every other
      setting of the section and adds no top-level key besides `general`. */
  lemma LoadedThemeDeepMerge(base: map<string, Value>)
    ensures Lookup(Dict(DeepMerge(base, ThemeFile)), ["general", "theme"]) == Some(Str("dark"))
    ensures forall k :: k != "theme" && Lookup(Dict(base), ["general", k]).Some? ==>
      Lookup(Dict(DeepMerge(base, ThemeFile)), ["general", k]) == Lookup(Dict(base), ["general", k])
    ensures DeepMerge(base, ThemeFile).Keys == base.Keys + {"general"}
  {
    DeepMergeTakesOverlay(base, ThemeFile, ["general", "theme"], Str("dark"));
    forall k | k != "theme" && Lookup(Dict(base), ["general", k]).Some?
      ensures Lookup(Dict(DeepMerge(base, ThemeFile)), ["general", k]) == Lookup(Dict(base), ["general", k])
    {
      assert AbsentIn(ThemeFile.entries, ["general", k]);
      DeepMergeKeepsBase(base, ThemeFile, ["general", k], Lookup(Dict(base), ["general", k]).value);
    }
  }

  /** The configuration manager: its `config` dictionary and the operations on it. */
  class ConfigurationManager {
    var config: map<string, Value>

    /** `__init__` with no configuration file: the defaults. */
    constructor ()
      ensures config == DefaultConfig()
    {
      config := DefaultConfig();
    }

    /** `get_config`: walks the dotted key; a failed step returns the default when it is
        not `None` and raises otherwise. */
    method GetConfig(key: string, default: Value) returns (r: Result<Value, string>)
      ensures r == Get(config, key, default)
    {
      var keys := Split(key);
      var value := Dict(config);
      var i := 0;
      while i < |keys|
        invariant 0 <= i <= |keys|
        invariant Lookup(Dict(config), keys) == Lookup(value, keys[i..])
      {
        if !(value.Dict? && keys[i] in value.entries) {
          if default != Null {
            return Ok(default);
          }
          return Err("configuration key not found: " + key);
        }
        assert keys[i..][1..] == keys[i + 1..];
        value := value.entries[keys[i]];
        i := i + 1;
      }
      return Ok(value);
    }

    /** `set_config`: stores the value under the dotted key, creating missing sections,
        and returns `False`, changing nothing, when the walk meets a value that is not a
        dictionary. */
    method SetConfig(key: string, value: Value) returns (ok: bool)
      modifies this
      ensures ok <==> !Blocked(old(config), Split(key))
      ensures ok ==> Assign(old(config), Split(key), value) == Some(config)
      ensures ok ==> Lookup(Dict(config), Split(key)) == Some(value)
      ensures !ok ==> config == old(config)
    {
      var keys := Split(key);
      AssignFailsIffBlocked(config, keys, value);
      match Assign(config, keys, value)
      case Some(updated) =>
        AssignThenLookup(config, keys, value);
        config := updated;
        ok := true;
      case None =>
        ok := false;
    }

    /** `_merge_config` as written: the entries of `newConfig` in iteration order,
        recursing into the root for two dictionaries. */
    method MergeConfigAsWritten(newConfig: Value, order: Ordering)
      requires newConfig.Dict?
      modifies this
      ensures config == MergeAsWritten(old(config), newConfig, order)
      decreases newConfig
    {
      var keys := order(newConfig.entries);
      for i := 0 to |keys|
        invariant MergeAsWritten(old(config), newConfig, order) == MergeEntries(config, newConfig, keys[i..], order)
      {
        assert keys[i..][1..] == keys[i + 1..];
        var key := keys[i];
        if key in newConfig.entries {
          var value := newConfig.entries[key];
          if key in config && config[key].Dict? && value.Dict? {
            MergeConfigAsWritten(value, order);
          } else {
            config := config[key := value];
          }
        }
      }
    }

    /** `_merge_config` as intended: each entry of `newConfig`, visited in any order,
        replaces the entry of the same key, and two dictionaries under the same key are
        merged with each other rather than into the root. */
    method MergeConfig(newConfig: Value)
      requires newConfig.Dict?
      modifies this
      ensures config == DeepMerge(old(config), newConfig)
    {
      ghost var merged := DeepMerge(config, newConfig);
      var remaining := newConfig.entries.Keys;
      while remaining != {}
        invariant remaining <= newConfig.entries.Keys
        invariant forall k :: k in config <==> k in old(config) || (k in newConfig.entries && k !in remaining)
        invariant forall k :: k in config ==>
          config[k] == if k in newConfig.entries && k !in remaining then merged[k] else old(config)[k]
        decreases remaining
      {
        var key :| key in remaining;
        var value := newConfig.entries[key];
        if key in config && config[key].Dict? && value.Dict? {
          config := config[key := Dict(DeepMerge(config[key].entries, value))];
        } else {
          config := config[key := value];
        }
        remaining := remaining - {key};
      }
    }

    /** `get_all_config`: a copy of the whole configuration. */
    method GetAllConfig() returns (r: map<string, Value>)
      ensures r == config
    {
      r := config;
    }

    /** `reset_to_defaults`: the defaults again. */
    method ResetToDefaults()
      modifies this
      ensures config == DefaultConfig()
    {
      config := DefaultConfig();
    }
  }
}
