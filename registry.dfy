/** The level registry of `Logger`: an insertion-ordered dictionary from
    lower-cased names to levels, rebuilt by `_update_levels` from the sorted
    level list, and the table of per-level log functions built beside it. */
module Registries {
  import opened Levels
  import PyStrings

  /** A Python `dict` with string keys: the keys in insertion order, and the mapping. */
  datatype Dict<V> = Dict(keys: seq<string>, entries: map<string, V>)
  {
    /** The sequence lists each key of the mapping, and each only once. */
    ghost predicate Valid()
    {
      && (forall i, j :: 0 <= i < j < |keys| ==> DifferAt(keys, i, j))
      && (forall k :: k in entries <==> k in keys)
    }

    /** `d[k] = v`: a new key is appended, an existing key keeps its position
        and only its value changes. */
    function Put(k: string, v: V): (r: Dict<V>)
      requires Valid()
      ensures r.Valid()
      ensures r.entries == entries[k := v]
      ensures k in entries ==> r.keys == keys
      ensures k !in entries ==> r.keys == keys + [k]
    {
      if k in entries then Dict(keys, entries[k := v])
      else
        forall i, j | 0 <= i < j < |keys| + 1 ensures DifferAt(keys + [k], i, j) {
          if j < |keys| { assert DifferAt(keys, i, j); }
        }
        Dict(keys + [k], entries[k := v])
    }

    /** `d.values()`, in key order. */
    function Values(): (vs: seq<V>)
      requires Valid()
      ensures |vs| == |keys|
      ensures forall i :: 0 <= i < |vs| ==> vs[i] == entries[keys[i]]
      ensures forall k :: k in entries ==> entries[k] in vs
    {
      var vs := seq(|keys|, i requires 0 <= i < |keys| => entries[keys[i]]);
      assert forall k :: k in entries ==> vs[IndexOf(keys, k)] == entries[k];
      vs
    }
  }

  /** The keys at positions `i` and `j` are not the same string. */
  ghost predicate DifferAt(keys: seq<string>, i: int, j: int)
  {
    0 <= i < |keys| && 0 <= j < |keys| ==> keys[i] != keys[j]
  }

  function IndexOf(keys: seq<string>, k: string): (i: nat)
    requires k in keys
    ensures i < |keys| && keys[i] == k
  {
    if keys[0] == k then 0 else 1 + IndexOf(keys[1..], k)
  }

  /** `{Key(l): f(l) for l in s}`: the keys in order of first occurrence, and
      for each key the value made from the LAST element of `s` with that key. */
  function Comprehend<V>(s: seq<Level>, f: Level -> V): (r: Dict<V>)
    ensures r.Valid()
    decreases |s|
  {
    if s == [] then Dict([], map[])
    else Comprehend(s[..|s| - 1], f).Put(Key(s[|s| - 1]), f(s[|s| - 1]))
  }

  /** Some element of `s` has the key `k`. */
  ghost predicate HasKey(s: seq<Level>, k: string)
  {
    exists i :: 0 <= i < |s| && Key(s[i]) == k
  }

  /** `s[i]` is the last element of `s` whose key is `k`. */
  ghost predicate LastWithKey(s: seq<Level>, k: string, i: int)
  {
    0 <= i < |s| && Key(s[i]) == k && forall j :: i < j < |s| ==> Key(s[j]) != k
  }

  /** A key is in the comprehension exactly when some element of `s` has it. */
  lemma {:induction false} ComprehendHasKey<V>(s: seq<Level>, f: Level -> V, k: string)
    ensures k in Comprehend(s, f).entries <==> HasKey(s, k)
    decreases |s|
  {
    if s != [] {
      var n := |s| - 1;
      var p := s[..n];
      ComprehendHasKey(p, f, k);
      if k != Key(s[n]) {
        if HasKey(p, k) {
          var i :| 0 <= i < |p| && Key(p[i]) == k;
          assert Key(s[i]) == k;
        }
        if HasKey(s, k) {
          var i :| 0 <= i < |s| && Key(s[i]) == k;
          assert Key(p[i]) == k;
        }
      }
    }
  }

  /** Each key of the comprehension holds the value made from the last element
      of `s` with that key. */
  lemma {:induction false} ComprehendLastWins<V>(s: seq<Level>, f: Level -> V, k: string)
    requires k in Comprehend(s, f).entries
    ensures exists i :: LastWithKey(s, k, i) && Comprehend(s, f).entries[k] == f(s[i])
    decreases |s|
  {
    var n := |s| - 1;
    var p := s[..n];
    if k == Key(s[n]) {
      assert LastWithKey(s, k, n);
    } else {
      ComprehendLastWins(p, f, k);
      var i :| LastWithKey(p, k, i) && Comprehend(p, f).entries[k] == f(p[i]);
      forall j | i < j < |s| ensures Key(s[j]) != k {
        if j < n { assert s[j] == p[j]; }
      }
      assert s[i] == p[i];
      assert LastWithKey(s, k, i);
    }
  }

  /** The key order of a comprehension depends only on the keys of `s`. */
  lemma {:induction false} ComprehendKeys<V, W>(s: seq<Level>, f: Level -> V, g: Level -> W)
    ensures Comprehend(s, f).keys == Comprehend(s, g).keys
    ensures Comprehend(s, f).entries.Keys == Comprehend(s, g).entries.Keys
    decreases |s|
  {
    if s != [] {
      ComprehendKeys(s[..|s| - 1], f, g);
    }
  }

  /** The dictionary `_update_levels` returns: `{l.name.lower(): l for l in sorted(levels)}`. */
  function Registry(levels: seq<Level>): Dict<Level>
  {
    Comprehend(Sort(levels), Identity)
  }

  /** A log function made by `_create_log_func`: a closure bound to one level name. */
  datatype LogFunc = LogFunc(level: string)

  function Identity(l: Level): Level
  {
    l
  }

  /** `_create_log_func(l.name.lower())`. */
  function BindLogFunc(l: Level): LogFunc
  {
    LogFunc(Key(l))
  }

  /** `_log_funcs` as `_update_levels` builds it: `{l.name.lower(): log function for it}`. */
  function DispatchTable(levels: seq<Level>): Dict<LogFunc>
  {
    Comprehend(Sort(levels), BindLogFunc)
  }

  /** A registry in the shape `_update_levels` produces: a dictionary whose every
      key is the lower-cased name of the level stored under it. */
  ghost predicate WellFormed(reg: Dict<Level>)
  {
    reg.Valid() && forall k :: k in reg.entries ==> Key(reg.entries[k]) == k
  }

  /** The dispatch table that belongs to a registry: the same keys, in the same
      order, each bound to its own level name. */
  function Mirror(reg: Dict<Level>): (funcs: Dict<LogFunc>)
    requires reg.Valid()
    ensures funcs.Valid()
    ensures funcs.keys == reg.keys
    ensures forall k :: k in funcs.entries ==> funcs.entries[k] == LogFunc(k)
  {
    Dict(reg.keys, map k | k in reg.entries :: LogFunc(k))
  }

  /** The level `l` is the greatest of `levels` whose key is `k`. */
  ghost predicate GreatestWithKey(l: Level, levels: seq<Level>, k: string)
  {
    l in levels && Key(l) == k && forall m :: m in levels && Key(m) == k ==> LessEq(m, l)
  }

  lemma GreatestWithKeyUnique(a: Level, b: Level, levels: seq<Level>, k: string)
    requires GreatestWithKey(a, levels, k) && GreatestWithKey(b, levels, k)
    ensures a == b
  {
    LessEqAntisymmetric(a, b);
  }

  /** `_update_levels` registers every input level's name and no other key, every
      key is the lower-cased name of its level, and for names that clash after
      lower-casing the level that sorts last wins. */
  lemma RegistryOf(levels: seq<Level>)
    ensures WellFormed(Registry(levels))
    ensures forall k :: k in Registry(levels).entries <==> exists l :: l in levels && Key(l) == k
    ensures forall k :: k in Registry(levels).entries ==> GreatestWithKey(Registry(levels).entries[k], levels, k)
  {
    forall k {
      RegistryAt(levels, k);
    }
  }

  lemma RegistryAt(levels: seq<Level>, k: string)
    ensures k in Registry(levels).entries <==> exists l :: l in levels && Key(l) == k
    ensures k in Registry(levels).entries ==> GreatestWithKey(Registry(levels).entries[k], levels, k)
  {
    RegistryKeyAt(levels, k);
    if k in Registry(levels).entries {
      RegistryEntryAt(levels, k);
    }
  }

  /** A key is registered exactly when some input level has it. */
  lemma RegistryKeyAt(levels: seq<Level>, k: string)
    ensures k in Registry(levels).entries <==> exists l :: l in levels && Key(l) == k
  {
    var s := Sort(levels);
    ComprehendHasKey(s, Identity, k);
    if exists l :: l in levels && Key(l) == k {
      var l :| l in levels && Key(l) == k;
      assert l in multiset(s);
      var i :| 0 <= i < |s| && s[i] == l;
    }
    if HasKey(s, k) {
      var i :| 0 <= i < |s| && Key(s[i]) == k;
      assert s[i] in multiset(levels);
    }
  }

  /** The level registered under a key is the greatest input level with it. */
  lemma RegistryEntryAt(levels: seq<Level>, k: string)
    requires k in Registry(levels).entries
    ensures GreatestWithKey(Registry(levels).entries[k], levels, k)
  {
    var s := Sort(levels);
    ComprehendLastWins(s, Identity, k);
    var i :| LastWithKey(s, k, i) && Comprehend(s, Identity).entries[k] == s[i];
    SortedLastIsGreatest(s, k, i);
    SortKeepsElements(levels);
  }

  /** In a sorted sequence the last element with a key is the greatest with it. */
  lemma SortedLastIsGreatest(s: seq<Level>, k: string, i: int)
    requires IsSorted(s) && LastWithKey(s, k, i)
    ensures GreatestWithKey(s[i], s, k)
  {
    forall m | m in s && Key(m) == k ensures LessEq(m, s[i]) {
      var j :| 0 <= j < |s| && s[j] == m;
      if j < i {
        assert LessEq(s[j], s[i]);
      }
    }
  }

  /** `_log_funcs` and the registry `_update_levels` builds have the same keys in
      the same order, and every log function is bound to its own key. */
  lemma DispatchTableMirrorsRegistry(levels: seq<Level>)
    ensures Registry(levels).Valid()
    ensures DispatchTable(levels) == Mirror(Registry(levels))
  {
    var s := Sort(levels);
    var r := Registry(levels);
    var d := DispatchTable(levels);
    ComprehendKeys(s, BindLogFunc, Identity);
    forall k | k in d.entries ensures d.entries[k] == LogFunc(k) {
      ComprehendLastWins(s, BindLogFunc, k);
      var i :| LastWithKey(s, k, i) && d.entries[k] == BindLogFunc(s[i]);
    }
    assert d.entries == Mirror(r).entries;
  }

  /** The entry `add_level` leaves under key `k` of the old registry `reg`. */
  function AddedEntry(reg: Dict<Level>, l: Level, k: string): Level
    requires k in reg.entries || k == Key(l)
  {
    if k != Key(l) then reg.entries[k]
    else if k in reg.entries then Max(reg.entries[k], l)
    else l
  }

  /** Every value of a well-formed registry is stored under its own key. */
  lemma ValueUnderOwnKey(reg: Dict<Level>, m: Level)
    requires WellFormed(reg) && m in reg.Values()
    ensures Key(m) in reg.entries && reg.entries[Key(m)] == m
  {
    var vs := reg.Values();
    var i :| 0 <= i < |vs| && vs[i] == m;
    assert reg.keys[i] in reg.entries;
  }

  lemma AddLevelKeyAt(reg: Dict<Level>, l: Level, k: string)
    requires WellFormed(reg)
    ensures k in Registry([l] + reg.Values()).entries <==> k in reg.entries || k == Key(l)
  {
    var input := [l] + reg.Values();
    RegistryAt(input, k);
    if k in reg.entries {
      assert reg.entries[k] in input;
    }
    if exists m :: m in input && Key(m) == k {
      var m :| m in input && Key(m) == k;
      if m != l {
        ValueUnderOwnKey(reg, m);
      }
    }
  }

  lemma AddLevelEntryAt(reg: Dict<Level>, l: Level, k: string)
    requires WellFormed(reg)
    requires k in reg.entries || k == Key(l)
    ensures k in Registry([l] + reg.Values()).entries
    ensures Registry([l] + reg.Values()).entries[k] == AddedEntry(reg, l, k)
  {
    var input := [l] + reg.Values();
    AddLevelKeyAt(reg, l, k);
    RegistryAt(input, k);
    var e := AddedEntry(reg, l, k);
    forall m | m in input && Key(m) == k ensures LessEq(m, e) {
      if m != l {
        ValueUnderOwnKey(reg, m);
      }
    }
    if k in reg.entries {
      assert reg.entries[k] in input;
    }
    assert GreatestWithKey(e, input, k);
    GreatestWithKeyUnique(Registry(input).entries[k], e, input, k);
  }

  /** The registry after `add_level`: rebuilding from the new level and the old
      registry's values keeps every old key and adds the new level's key; it
      changes only the entry under that key, which becomes the new level, or
      the later of it and the level already there. */
  lemma AddLevelEntries(reg: Dict<Level>, l: Level)
    requires WellFormed(reg)
    ensures forall k :: k in Registry([l] + reg.Values()).entries <==> k in reg.entries || k == Key(l)
    ensures forall k :: k in Registry([l] + reg.Values()).entries ==>
              Registry([l] + reg.Values()).entries[k] == AddedEntry(reg, l, k)
  {
    forall k {
      AddLevelKeyAt(reg, l, k);
    }
    forall k | k in Registry([l] + reg.Values()).entries {
      AddLevelEntryAt(reg, l, k);
    }
  }

  /** `add_level` only adds keys: the old keys and the new level's key. */
  lemma AddLevelKeys(reg: Dict<Level>, l: Level)
    requires WellFormed(reg)
    ensures Registry([l] + reg.Values()).entries.Keys == reg.entries.Keys + {Key(l)}
  {
    AddLevelEntries(reg, l);
  }

  /** Every key of a well-formed registry is already lower case, so `lower()`
      leaves a stored threshold name unchanged. */
  lemma KeyIsLowercase(reg: Dict<Level>, k: string)
    requires WellFormed(reg) && k in reg.entries
    ensures PyStrings.Lower(k) == k
  {
    PyStrings.LowerIdempotent(reg.entries[k].name);
  }

  lemma TraceKey()
    ensures Key(TraceLevel) == "trace"
  {
    PyStrings.LowerOfLowercase(TraceLevel.name);
  }

  lemma InfoKey()
    ensures Key(InfoLevel) == "info"
  {
    PyStrings.LowerOfLowercase(InfoLevel.name);
  }

  /** With the default levels, both the default threshold `info` and the
      `trace` level that `log_to_all_levels` switches to are registered. */
  lemma DefaultsRegisterTraceAndInfo()
    ensures "trace" in Registry(DefaultLevels()).entries
    ensures "info" in Registry(DefaultLevels()).entries
  {
    TraceKey();
    InfoKey();
    assert TraceLevel in DefaultLevels() && InfoLevel in DefaultLevels();
    RegistryAt(DefaultLevels(), "trace");
    RegistryAt(DefaultLevels(), "info");
  }
}
