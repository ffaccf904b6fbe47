/** The `Logger` object: its registry of levels, its threshold, its layout
    template and the table of per-level log functions, updated in place by its
    methods, and the console it prints to. */
module Logging {
  import opened Wrappers
  import opened Levels
  import opened Registries
  import opened Effects
  import PyStrings

  /** The console the logger prints to, as the lines printed so far. */
  class Console {
    var lines: seq<string>

    constructor ()
      ensures lines == []
    {
      lines := [];
    }

    method Print(line: string)
      modifies this
      ensures lines == old(lines) + [line]
    {
      lines := lines + [line];
    }
  }

  lemma AppendAssoc<T>(a: seq<T>, b: seq<T>, c: seq<T>)
    ensures (a + b) + c == a + (b + c)
  {
  }

  /** The level list a new logger starts from. */
  function LevelsOrDefault(levels: Option<seq<Level>>): seq<Level>
  {
    match levels
    case None => DefaultLevels()
    case Some(given) => given
  }

  /** The text of the `AttributeError` for a missing log function. */
  function NoAttributeMessage(name: string): string
  {
    "'Logger' has no attribute '" + name + "'"
  }

  class Logger {
    /** `levels`: lower-cased name to level, in insertion order. */
    var levels: Dict<Level>
    /** `_level`: the name of the threshold level. */
    var threshold: string
    var template: string
    var timestampFormat: string
    var timezone: string
    /** `_log_funcs`: lower-cased name to the log function bound to it. */
    var logFuncs: Dict<LogFunc>
    const console: Console
    /** `_format_message` apart from argument resolution. */
    const render: Renderer
    /** The lazy arguments called so far, by key, in call order. */
    ghost var supplierCalls: seq<string>

    /** The threshold names a registered level, and the log functions mirror
        the registry key for key. */
    ghost predicate Valid()
      reads this`levels, this`threshold, this`logFuncs
    {
      WellFormed(levels) && threshold in levels.entries && logFuncs == Mirror(levels)
    }

    /** `__init__` once the initial level has been checked; see `New`. */
    constructor (level: string, template: string, timestampFormat: string, timezone: string,
                 given: seq<Level>, console: Console, render: Renderer)
      requires PyStrings.Lower(level) in Registry(given).entries
      ensures Valid()
      ensures levels == Registry(given)
      ensures threshold == PyStrings.Lower(level)
      ensures this.template == template && this.timestampFormat == timestampFormat && this.timezone == timezone
      ensures this.console == console && this.render == render && supplierCalls == []
    {
      levels := Dict([], map[]);
      threshold := "";
      this.template := template;
      this.timestampFormat := timestampFormat;
      this.timezone := timezone;
      logFuncs := Dict([], map[]);
      this.console := console;
      this.render := render;
      supplierCalls := [];
      new;
      var reg := UpdateLevels(given);
      levels := reg;
      threshold := PyStrings.Lower(level);
    }

    /** `Logger(level, template, timestamp_format, timezone, levels)`: a logger
        over the given levels (the defaults when none are given), or the
        setter's `ValueError` when `level` is not among them. */
    static method New(level: string, template: string, timestampFormat: string, timezone: string,
                      levels: Option<seq<Level>>, console: Console, render: Renderer)
      returns (r: Result<Logger, LogError>)
      ensures var reg := Registry(LevelsOrDefault(levels));
              && (r.Success? <==> PyStrings.Lower(level) in reg.entries)
              && (r.Success? ==> fresh(r.value) && r.value.Valid() && r.value.levels == reg
                                 && r.value.threshold == PyStrings.Lower(level) && r.value.template == template
                                 && r.value.timestampFormat == timestampFormat && r.value.timezone == timezone
                                 && r.value.console == console && r.value.render == render
                                 && r.value.supplierCalls == [])
              && (r.Failure? ==> r.error == ValueError(UnknownLevelMessage(level, reg.keys)))
    {
      var given := LevelsOrDefault(levels);
      var reg := Registry(given);
      RegistryOf(given);
      if PyStrings.Lower(level) in reg.entries {
        var logger := new Logger(level, template, timestampFormat, timezone, given, console, render);
        r := Success(logger);
      } else {
        r := Failure(ValueError(UnknownLevelMessage(level, reg.keys)));
      }
    }

    /** `_update_levels`: rebuilds the log-function table and returns the new
        registry, both from the levels in sorted order. */
    method UpdateLevels(given: seq<Level>) returns (reg: Dict<Level>)
      modifies this`logFuncs
      ensures WellFormed(reg)
      ensures reg == Registry(given) && logFuncs == Mirror(reg)
    {
      logFuncs := DispatchTable(given);
      reg := Registry(given);
      RegistryOf(given);
      DispatchTableMirrorsRegistry(given);
    }

    /** The `level` property: the threshold name, always registered and
        lower-case. */
    function CurrentLevel(): (name: string)
      reads this`levels, this`threshold, this`logFuncs
      requires Valid()
      ensures name in levels.entries && PyStrings.Lower(name) == name
    {
      KeyIsLowercase(levels, threshold);
      threshold
    }

    /** The `level` setter: stores the lower-cased name of a registered level,
        or raises `ValueError` naming the level and every registered name and
        leaves the threshold alone. */
    method SetLevel(levelName: string) returns (outcome: Outcome)
      requires Valid()
      modifies this`threshold
      ensures Valid()
      ensures PyStrings.Lower(levelName) in levels.entries ==>
                outcome == Returned && threshold == PyStrings.Lower(levelName)
      ensures PyStrings.Lower(levelName) !in levels.entries ==>
                outcome == Raised(ValueError(UnknownLevelMessage(levelName, levels.keys)))
                && threshold == old(threshold)
    {
      match ThresholdName(levels, levelName)
      case Success(name) =>
        threshold := name;
        outcome := Returned;
      case Failure(err) =>
        outcome := Raised(err);
    }

    /** The `level_cfg` property: the threshold's level, which `_get_level_cfg`
        finds under the threshold name. */
    function LevelCfg(): (cfg: Level)
      reads this`levels, this`threshold, this`logFuncs
      requires Valid()
      ensures Key(cfg) == threshold
      ensures LookupLevel(levels, threshold) == Success(cfg)
    {
      KeyIsLowercase(levels, threshold);
      levels.entries[threshold]
    }

    /** The `template` setter. */
    method SetTemplate(t: string)
      modifies this`template
      ensures template == t
    {
      template := t;
    }

    /** `_format_message`: resolves every keyword argument, calling the lazy
        ones once each in order, then renders; a keyword argument reusing one
        of its parameter names raises `TypeError` before anything is called. */
    method FormatMessage(message: string, cfg: Level, kwargs: seq<Kwarg>) returns (r: Result<string, LogError>)
      modifies this`supplierCalls
      ensures FormatClash(kwargs).Some? ==>
                r == Failure(TypeError(FormatClash(kwargs).value))
                && supplierCalls == old(supplierCalls)
      ensures FormatClash(kwargs).None? ==>
                supplierCalls == old(supplierCalls) + LazyKeys(kwargs)
                && (render(template, message, cfg, Resolve(kwargs)).Success? ==>
                      r == Success(render(template, message, cfg, Resolve(kwargs)).value))
                && (render(template, message, cfg, Resolve(kwargs)).Failure? ==>
                      r == Failure(FormatError(render(template, message, cfg, Resolve(kwargs)).error)))
    {
      match FormatClash(kwargs)
      case Some(key) =>
        r := Failure(TypeError(key));
      case None =>
        var args := Resolve(kwargs);
        supplierCalls := supplierCalls + LazyKeys(kwargs);
        match render(template, message, cfg, args)
        case Success(line) => r := Success(line);
        case Failure(m) => r := Failure(FormatError(m));
    }

    /** `log(level, message, **kwargs)`: prints and ends exactly as `LogEffect`
        says, and changes nothing else. */
    method Log(levelName: string, message: string, kwargs: seq<Kwarg>) returns (outcome: Outcome)
      requires Valid()
      modifies console, this`supplierCalls
      ensures var e := LogEffect(levels, threshold, template, render, levelName, message, kwargs);
              && console.lines == old(console.lines) + e.lines
              && supplierCalls == old(supplierCalls) + e.calls
              && outcome == e.outcome
    {
      if FirstClash(kwargs, LogParameters()).Some? {
        return Raised(TypeError(FirstClash(kwargs, LogParameters()).value));
      }
      var found := LookupLevel(levels, levelName);
      if found.Failure? {
        return Raised(found.error);
      }
      var cfg := found.value;
      if cfg.no < LevelCfg().no {
        return Returned;
      }
      outcome := Emit(cfg, message, kwargs);
    }

    /** The part of `log` past the threshold filter: print the formatted line
        and, for an escalating level, raise `LogarooError` with the message
        formatted again. */
    method Emit(cfg: Level, message: string, kwargs: seq<Kwarg>) returns (outcome: Outcome)
      modifies console, this`supplierCalls
      ensures var e := EmitEffect(template, render, cfg, message, kwargs);
              && console.lines == old(console.lines) + e.lines
              && supplierCalls == old(supplierCalls) + e.calls
              && outcome == e.outcome
    {
      var shown := FormatMessage(message, cfg, kwargs);
      if shown.Failure? {
        return Raised(shown.error);
      }
      console.Print(shown.value);
      if cfg.raiseError {
        var again := FormatMessage(message, cfg, kwargs);
        return Raised(LogarooError(again.value));
      }
      return Returned;
    }

    /** `__getattr__`: the log function registered under exactly `name`, or
        `AttributeError`. */
    function GetAttr(name: string): (r: Result<LogFunc, LogError>)
      reads this`levels, this`threshold, this`logFuncs
      requires Valid()
      ensures r.Success? <==> name in levels.entries
      ensures r.Success? ==> r.value == LogFunc(name)
      ensures r.Failure? ==> r.error == AttributeError(NoAttributeMessage(name))
    {
      if name in logFuncs.entries then Success(logFuncs.entries[name])
      else Failure(AttributeError(NoAttributeMessage(name)))
    }

    /** `logger.<name>(message, **kwargs)`: looks the log function up and calls
        it, which logs at its own level; it never meets an unknown level. A
        keyword argument named `message` repeats the closure's own parameter. */
    method CallLogFunc(name: string, message: string, kwargs: seq<Kwarg>) returns (outcome: Outcome)
      requires Valid()
      modifies console, this`supplierCalls
      ensures name !in levels.entries ==>
                outcome == Raised(AttributeError(NoAttributeMessage(name)))
                && console.lines == old(console.lines) && supplierCalls == old(supplierCalls)
      ensures name in levels.entries && FirstClash(kwargs, ClosureParameters()).Some? ==>
                outcome == Raised(TypeError("message"))
                && console.lines == old(console.lines) && supplierCalls == old(supplierCalls)
      ensures name in levels.entries && FirstClash(kwargs, ClosureParameters()).None? ==>
                var e := LogEffect(levels, threshold, template, render, name, message, kwargs);
                && console.lines == old(console.lines) + e.lines
                && supplierCalls == old(supplierCalls) + e.calls
                && outcome == e.outcome
      ensures outcome.Raised? ==> !outcome.error.KeyError?
    {
      match GetAttr(name)
      case Failure(err) =>
        outcome := Raised(err);
      case Success(f) =>
        if FirstClash(kwargs, ClosureParameters()).Some? {
          return Raised(TypeError(FirstClash(kwargs, ClosureParameters()).value));
        }
        KeyIsLowercase(levels, name);
        outcome := Log(f.level, message, kwargs);
    }

    /** The log-function names `__dir__` adds: exactly the registered keys,
        each once. */
    function LevelAttributes(): (names: seq<string>)
      reads this`levels, this`threshold, this`logFuncs
      requires Valid()
      ensures forall k :: k in names <==> k in levels.entries
      ensures forall i, j :: 0 <= i < j < |names| ==> names[i] != names[j]
    {
      forall i, j | 0 <= i < j < |logFuncs.keys| ensures logFuncs.keys[i] != logFuncs.keys[j] {
        assert DifferAt(logFuncs.keys, i, j);
      }
      logFuncs.keys
    }

    /** `add_level`: re-registers the new level together with the current
        ones (`AddLevelEntries` says what that does key by key); the threshold
        stays registered. */
    method AddLevel(name: string, no: int, color: string, icon: string, raiseError: bool)
      requires Valid()
      modifies this`levels, this`logFuncs
      ensures Valid()
      ensures levels == Registry([Level(no, name, color, icon, raiseError)] + old(levels).Values())
      ensures levels.entries.Keys == old(levels).entries.Keys + {PyStrings.Lower(name)}
    {
      var l := Level(no, name, color, icon, raiseError);
      var given := [l] + levels.Values();
      AddLevelKeys(levels, l);
      var reg := UpdateLevels(given);
      InstallLevels(reg);
    }

    /** `add_level(name, no, color, icon)` without `raise_error`: the
        keyword-only flag defaults to `False`, so the new level never escalates. */
    method AddPlainLevel(name: string, no: int, color: string, icon: string)
      requires Valid()
      modifies this`levels, this`logFuncs
      ensures Valid()
      ensures levels == Registry([Level(no, name, color, icon, false)] + old(levels).Values())
      ensures levels.entries.Keys == old(levels).entries.Keys + {PyStrings.Lower(name)}
    {
      AddLevel(name, no, color, icon, false);
    }

    /** The assignment `self.levels = ...` after `_update_levels`, for a
        registry that still holds the threshold. */
    method InstallLevels(reg: Dict<Level>)
      requires WellFormed(reg) && threshold in reg.entries && logFuncs == Mirror(reg)
      modifies this`levels
      ensures Valid() && levels == reg
    {
      levels := reg;
    }

    /** The loop of `log_to_all_levels`: logs each level of `order` with its
        name and number, suppressing escalations and stopping at any other
        error. */
    method SweepLevels(order: seq<Level>, message: string) returns (outcome: Outcome)
      requires Valid()
      modifies console, this`supplierCalls
      ensures var e := Sweep(levels, threshold, template, render, message, order);
              && console.lines == old(console.lines) + e.lines
              && supplierCalls == old(supplierCalls) + e.calls
              && outcome == e.outcome
    {
      ghost var rounds := Rounds(levels, threshold, template, render, message, order);
      ghost var done := SweepPrefix(rounds, 0);
      var i := 0;
      while i < |order|
        invariant 0 <= i <= |order|
        invariant done == SweepPrefix(rounds, i) && done.outcome == Returned
        invariant console.lines == old(console.lines) + done.lines
        invariant supplierCalls == old(supplierCalls) + done.calls
      {
        var o := SweepRound(order, i, message);
        AppendAssoc(old(console.lines), done.lines, rounds[i].lines);
        AppendAssoc(old(supplierCalls), done.calls, rounds[i].calls);
        done := SweepPrefix(rounds, i + 1);
        outcome := Suppress(o);
        if outcome.Raised? {
          SweepStopsAtError(rounds, i + 1, |order|);
          return;
        }
        i := i + 1;
      }
      outcome := Returned;
    }

    /** One round of the sweep: `self.log(level.name, template, name=level.name,
        no=level.no)` for the level at index `i` of `order`. */
    method SweepRound(order: seq<Level>, i: nat, message: string) returns (outcome: Outcome)
      requires Valid() && i < |order|
      modifies console, this`supplierCalls
      ensures var e := Rounds(levels, threshold, template, render, message, order)[i];
              && console.lines == old(console.lines) + e.lines
              && supplierCalls == old(supplierCalls) + e.calls
              && outcome == e.outcome
    {
      RoundAt(levels, threshold, template, render, message, order, i);
      outcome := Log(order[i].name, message, SweepKwargs(order[i]));
    }

    /** The rest of `log_to_all_levels` as written, once the threshold is
        `trace`: the sweep, then `self.level = saved` only if it returned. */
    method SweepThenRestore(saved: string, message: string) returns (outcome: Outcome)
      requires Valid() && saved in levels.entries
      modifies this`threshold, console, this`supplierCalls
      ensures Valid()
      ensures var e := Sweep(levels, old(threshold), template, render, message, SweepOrder(levels));
              && console.lines == old(console.lines) + e.lines
              && supplierCalls == old(supplierCalls) + e.calls
              && outcome == e.outcome
              && threshold == (if e.outcome.Raised? then old(threshold) else saved)
    {
      outcome := SweepLevels(SweepOrder(levels), message);
      if outcome.Raised? {
        return;
      }
      threshold := saved;
    }

    /** The same with `self.level = saved` on every path. */
    method SweepAndRestore(saved: string, message: string) returns (outcome: Outcome)
      requires Valid() && saved in levels.entries
      modifies this`threshold, console, this`supplierCalls
      ensures Valid()
      ensures var e := Sweep(levels, old(threshold), template, render, message, SweepOrder(levels));
              && console.lines == old(console.lines) + e.lines
              && supplierCalls == old(supplierCalls) + e.calls
              && outcome == e.outcome
              && threshold == saved
    {
      outcome := SweepLevels(SweepOrder(levels), message);
      threshold := saved;
    }

    /** `log_to_all_levels(template)` as written: the threshold is put back
        only when the sweep ends normally. The two cases are together
        `LogToAllLevelsEffect` (`LogToAllLevelsRefused`, `LogToAllLevelsSwept`). */
    method LogToAllLevels(message: string) returns (outcome: Outcome)
      requires Valid()
      modifies this`threshold, console, this`supplierCalls
      ensures Valid()
      ensures "trace" !in levels.entries ==>
                outcome == Raised(ValueError(UnknownLevelMessage("trace", levels.keys)))
                && threshold == old(threshold)
                && console.lines == old(console.lines) && supplierCalls == old(supplierCalls)
      ensures "trace" in levels.entries ==>
                var e := Sweep(levels, "trace", template, render, message, SweepOrder(levels));
                && console.lines == old(console.lines) + e.lines
                && supplierCalls == old(supplierCalls) + e.calls
                && outcome == e.outcome
                && threshold == (if e.outcome.Raised? then "trace" else old(threshold))
    {
      var current := threshold;
      TraceIsLowercase();
      outcome := SetLevel("trace");
      if outcome.Raised? {
        return;
      }
      outcome := SweepThenRestore(current, message);
    }

    /** `log_to_all_levels()` with its default template, which names each
        level and its number. */
    method LogToAllLevelsDefault() returns (outcome: Outcome)
      requires Valid()
      modifies this`threshold, console, this`supplierCalls
      ensures Valid()
      ensures "trace" !in levels.entries ==>
                outcome == Raised(ValueError(UnknownLevelMessage("trace", levels.keys)))
                && threshold == old(threshold)
                && console.lines == old(console.lines) && supplierCalls == old(supplierCalls)
      ensures "trace" in levels.entries ==>
                var e := Sweep(levels, "trace", template, render, SweepMessage, SweepOrder(levels));
                && console.lines == old(console.lines) + e.lines
                && supplierCalls == old(supplierCalls) + e.calls
                && outcome == e.outcome
                && threshold == (if e.outcome.Raised? then "trace" else old(threshold))
    {
      outcome := LogToAllLevels(SweepMessage);
    }

    /** `log_to_all_levels` with the threshold put back on every path; the two
        cases are together `RestoringLogToAllLevelsEffect`. */
    method LogToAllLevelsRestoring(message: string) returns (outcome: Outcome)
      requires Valid()
      modifies this`threshold, console, this`supplierCalls
      ensures Valid()
      ensures threshold == old(threshold)
      ensures "trace" !in levels.entries ==>
                outcome == Raised(ValueError(UnknownLevelMessage("trace", levels.keys)))
                && console.lines == old(console.lines) && supplierCalls == old(supplierCalls)
      ensures "trace" in levels.entries ==>
                var e := Sweep(levels, "trace", template, render, message, SweepOrder(levels));
                && console.lines == old(console.lines) + e.lines
                && supplierCalls == old(supplierCalls) + e.calls
                && outcome == e.outcome
    {
      var current := threshold;
      TraceIsLowercase();
      outcome := SetLevel("trace");
      if outcome.Raised? {
        return;
      }
      outcome := SweepAndRestore(current, message);
    }
  }
}
