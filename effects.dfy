/** What one call of `Logger.log` and one `log_to_all_levels` sweep do, as pure
    functions of the logger's state: the lines handed to the console, the lazy
    keyword arguments that get called, and how the call ends. */
module Effects {
  import opened Wrappers
  import opened Levels
  import opened Registries
  import PyStrings

  /** A value passed to the message template. */
  datatype Value = Text(text: string) | Number(number: int)

  /** A keyword argument of a log call: a plain value, or a zero-argument
      callable (a lazy argument) that yields its value when it is called. */
  datatype Arg = Given(value: Value) | Lazy(produces: Value)

  datatype Kwarg = Kwarg(key: string, arg: Arg)

  /** The exceptions a logger operation can end with. */
  datatype LogError =
    | ValueError(message: string)      // unknown threshold level name
    | KeyError(key: string)            // `log` to an unregistered level
    | AttributeError(message: string)  // no log function of that name
    | TypeError(key: string)           // keyword argument clashing with a parameter
    | FormatError(message: string)     // `str.format` failed on a template
    | LogarooError(message: string)    // escalation after an emitted line

  /** How a call ends: it returns normally, or raises. */
  datatype Outcome = Returned | Raised(error: LogError)

  /** `_format_message` with the clock readings left out: (layout template,
      message, level, resolved keyword arguments) to the rendered line, or the
      message of the formatting error. */
  type Renderer = (string, string, Level, seq<(string, Value)>) -> Result<string, string>

  /** The observable effect of a call: lines printed, lazy arguments called
      (by key, in call order), and the outcome. */
  datatype Effect = Effect(lines: seq<string>, calls: seq<string>, outcome: Outcome)

  /** The text of the `ValueError` the threshold setter raises. */
  function UnknownLevelMessage(levelName: string, names: seq<string>): string
  {
    "unknown level '" + levelName + "'. Use one of " + PyStrings.Join(", ", names)
  }

  /** The threshold setter's check: the name it stores, or the error it raises. */
  function ThresholdName(reg: Dict<Level>, levelName: string): (r: Result<string, LogError>)
    requires WellFormed(reg)
    ensures r.Success? <==> PyStrings.Lower(levelName) in reg.entries
    ensures r.Success? ==> r.value == PyStrings.Lower(levelName) && PyStrings.Lower(r.value) == r.value
    ensures r.Failure? ==> r.error.ValueError?
    ensures r.Failure? ==> PyStrings.Contains(r.error.message, levelName)
    ensures r.Failure? ==> forall k :: k in reg.entries ==> PyStrings.Contains(r.error.message, k)
  {
    var name := PyStrings.Lower(levelName);
    if name in reg.entries then
      PyStrings.LowerIdempotent(levelName);
      Success(name)
    else
      var message := UnknownLevelMessage(levelName, reg.keys);
      UnknownLevelMessageNames(levelName, reg.keys);
      Failure(ValueError(message))
  }

  /** The setter's message names the rejected level and every registered one. */
  lemma UnknownLevelMessageNames(levelName: string, names: seq<string>)
    ensures PyStrings.Contains(UnknownLevelMessage(levelName, names), levelName)
    ensures forall k :: k in names ==> PyStrings.Contains(UnknownLevelMessage(levelName, names), k)
  {
    var head := "unknown level '";
    var tail := "'. Use one of " + PyStrings.Join(", ", names);
    PyStrings.ContainsItself(levelName);
    PyStrings.ContainsInSuffix(head, levelName, levelName);
    PyStrings.ContainsInPrefix(head + levelName, tail, levelName);
    assert UnknownLevelMessage(levelName, names) == head + levelName + tail;
    PyStrings.JoinContainsParts(", ", names);
    forall k | k in names
      ensures PyStrings.Contains(UnknownLevelMessage(levelName, names), k)
    {
      PyStrings.ContainsInSuffix(head + levelName + "'. Use one of ", PyStrings.Join(", ", names), k);
    }
  }

  /** The setter ignores case: `"DeBUg"` selects the `debug` level and stores
      its key. */
  lemma ThresholdNameIgnoresCase(reg: Dict<Level>)
    requires WellFormed(reg) && "debug" in reg.entries
    ensures ThresholdName(reg, "DeBUg") == Success("debug")
  {
    var lowered := PyStrings.Lower("DeBUg");
    forall i | 0 <= i < 5 ensures lowered[i] == "debug"[i] {
      PyStrings.LowerAt("DeBUg", i);
    }
    assert lowered == "debug";
  }

  /** `_get_level_cfg`: the level registered under the lower-cased name. */
  function LookupLevel(reg: Dict<Level>, levelName: string): (r: Result<Level, LogError>)
    requires WellFormed(reg)
    ensures r.Success? <==> PyStrings.Lower(levelName) in reg.entries
    ensures r.Success? ==> Key(r.value) == PyStrings.Lower(levelName)
    ensures r.Success? ==> r.value in reg.entries.Values
    ensures r.Failure? ==> r.error == KeyError(PyStrings.Lower(levelName))
  {
    var name := PyStrings.Lower(levelName);
    if name in reg.entries then Success(reg.entries[name]) else Failure(KeyError(name))
  }

  /** Parameter names of `Logger.log` that a keyword argument may not reuse. */
  function LogParameters(): set<string>
  {
    {"self", "level", "message"}
  }

  /** Parameter names of `_format_message` that a keyword argument may not reuse. */
  function FormatParameters(): set<string>
  {
    {"self", "message", "level_cfg", "keep_markup"}
  }

  /** The keyword-only parameter that `log` itself passes to `_format_message`. */
  const KeepMarkup := "keep_markup"

  /** The parameter of the per-level closure that a keyword argument may not reuse. */
  function ClosureParameters(): set<string>
  {
    {"message"}
  }

  /** Argument `i` is the first keyword argument whose key is one of `params`. */
  ghost predicate ClashesFirstAt(kwargs: seq<Kwarg>, params: set<string>, i: int)
  {
    0 <= i < |kwargs| && kwargs[i].key in params
    && forall j :: 0 <= j < i ==> kwargs[j].key !in params
  }

  /** The first keyword argument whose key is one of `params`, if any: binding
      reports the first repeated parameter in argument order. */
  function FirstClash(kwargs: seq<Kwarg>, params: set<string>): (r: Option<string>)
    ensures r.None? <==> forall i :: 0 <= i < |kwargs| ==> kwargs[i].key !in params
    ensures r.Some? ==> r.value in params
    ensures r.Some? ==> exists i :: ClashesFirstAt(kwargs, params, i) && kwargs[i].key == r.value
  {
    if kwargs == [] then None
    else if kwargs[0].key in params then
      assert ClashesFirstAt(kwargs, params, 0);
      Some(kwargs[0].key)
    else
      var rest := FirstClash(kwargs[1..], params);
      assert forall i :: 1 <= i < |kwargs| ==> kwargs[i] == kwargs[1..][i - 1];
      assert rest.Some? ==> exists i :: ClashesFirstAt(kwargs, params, i) && kwargs[i].key == rest.value by {
        if rest.Some? {
          var i :| ClashesFirstAt(kwargs[1..], params, i) && kwargs[1..][i].key == rest.value;
          assert ClashesFirstAt(kwargs, params, i + 1);
        }
      }
      rest
  }

  /** The key a `TypeError` of `_format_message(message, cfg, **kwargs,
      keep_markup=True)` names: merging the keywords at the call fails first on
      a caller's `keep_markup`; binding then fails on the first argument that
      repeats `self`, `message` or `level_cfg`. */
  function FormatClash(kwargs: seq<Kwarg>): (r: Option<string>)
    ensures r.None? <==> forall i :: 0 <= i < |kwargs| ==> kwargs[i].key !in FormatParameters()
    ensures (exists i :: 0 <= i < |kwargs| && kwargs[i].key == KeepMarkup) ==> r == Some(KeepMarkup)
    ensures (forall i :: 0 <= i < |kwargs| ==> kwargs[i].key != KeepMarkup) ==> r == FirstClash(kwargs, FormatParameters())
  {
    if FirstClash(kwargs, {KeepMarkup}).Some? then Some(KeepMarkup) else FirstClash(kwargs, FormatParameters())
  }

  /** The value a keyword argument contributes once resolved. */
  function Resolved(a: Arg): Value
  {
    match a
    case Given(v) => v
    case Lazy(v) => v
  }

  /** The `format_args` of `_format_message`: every callable is called. */
  function Resolve(kwargs: seq<Kwarg>): (args: seq<(string, Value)>)
    ensures |args| == |kwargs|
    ensures forall i :: 0 <= i < |kwargs| ==> args[i] == (kwargs[i].key, Resolved(kwargs[i].arg))
  {
    if kwargs == [] then [] else [(kwargs[0].key, Resolved(kwargs[0].arg))] + Resolve(kwargs[1..])
  }

  /** The keys of the lazy arguments, in order: the callables one resolution calls. */
  function LazyKeys(kwargs: seq<Kwarg>): (keys: seq<string>)
    ensures |keys| <= |kwargs|
    ensures forall k :: k in keys <==> exists i :: 0 <= i < |kwargs| && kwargs[i].arg.Lazy? && kwargs[i].key == k
  {
    if kwargs == [] then []
    else
      var rest := LazyKeys(kwargs[1..]);
      assert forall i :: 1 <= i < |kwargs| ==> kwargs[i] == kwargs[1..][i - 1];
      (if kwargs[0].arg.Lazy? then [kwargs[0].key] else []) + rest
  }

  /** The positions of the lazy arguments. */
  ghost function LazyPositions(kwargs: seq<Kwarg>): set<int>
  {
    set i | 0 <= i < |kwargs| && kwargs[i].arg.Lazy?
  }

  /** Resolving a concatenation calls the callables of each part in turn. */
  lemma {:induction false} LazyKeysAppend(a: seq<Kwarg>, b: seq<Kwarg>)
    ensures LazyKeys(a + b) == LazyKeys(a) + LazyKeys(b)
  {
    if a == [] {
      assert a + b == b;
    } else {
      var head := if a[0].arg.Lazy? then [a[0].key] else [];
      assert (a + b)[0] == a[0] && (a + b)[1..] == a[1..] + b;
      assert LazyKeys(a + b) == head + LazyKeys(a[1..] + b);
      LazyKeysAppend(a[1..], b);
      assert head + (LazyKeys(a[1..]) + LazyKeys(b)) == (head + LazyKeys(a[1..])) + LazyKeys(b);
    }
  }

  /** One resolution calls each lazy argument exactly once. */
  lemma {:induction false} LazyKeysCount(kwargs: seq<Kwarg>)
    ensures |LazyKeys(kwargs)| == |LazyPositions(kwargs)|
    decreases |kwargs|
  {
    if kwargs != [] {
      var n := |kwargs| - 1;
      var init := kwargs[..n];
      assert kwargs == init + [kwargs[n]];
      LazyKeysAppend(init, [kwargs[n]]);
      LazyKeysCount(init);
      assert LazyKeys([kwargs[n]]) == (if kwargs[n].arg.Lazy? then [kwargs[n].key] else []);
      if kwargs[n].arg.Lazy? {
        assert LazyPositions(kwargs) == LazyPositions(init) + {n};
        assert n !in LazyPositions(init);
      } else {
        assert LazyPositions(kwargs) == LazyPositions(init);
      }
    }
  }

  /** A call at `levelName` passes the threshold filter. */
  predicate Visible(reg: Dict<Level>, threshold: string, levelName: string)
    requires threshold in reg.entries
  {
    PyStrings.Lower(levelName) in reg.entries
    && reg.entries[PyStrings.Lower(levelName)].no >= reg.entries[threshold].no
  }

  /** `log(level_name, message, **kwargs)` under registry `reg`, threshold
      `threshold` and layout template `template`. */
  function LogEffect(reg: Dict<Level>, threshold: string, template: string, render: Renderer,
                     levelName: string, message: string, kwargs: seq<Kwarg>): (e: Effect)
    requires WellFormed(reg) && threshold in reg.entries
    ensures |e.lines| <= 1
    ensures e.lines != [] || e.calls != [] ==> Visible(reg, threshold, levelName)
    ensures e.outcome.Raised? && e.outcome.error.LogarooError? ==> e.lines == [e.outcome.error.message]
    ensures e.lines != [] ==> e.outcome == Returned || e.outcome.error.LogarooError?
  {
    match FirstClash(kwargs, LogParameters())
    case Some(key) => Effect([], [], Raised(TypeError(key)))
    case None =>
      match LookupLevel(reg, levelName)
      case Failure(err) => Effect([], [], Raised(err))
      case Success(cfg) =>
        if cfg.no < reg.entries[threshold].no then Effect([], [], Returned)
        else EmitEffect(template, render, cfg, message, kwargs)
  }

  /** The part of `log` past the threshold filter: format and print the line,
      then, for an escalating level, format it again and raise it. */
  function EmitEffect(template: string, render: Renderer, cfg: Level, message: string, kwargs: seq<Kwarg>): (e: Effect)
    ensures |e.lines| <= 1
    ensures e.outcome.Raised? && e.outcome.error.LogarooError? ==> e.lines == [e.outcome.error.message]
    ensures e.lines != [] ==> e.outcome == Returned || e.outcome.error.LogarooError?
  {
    match FormatClash(kwargs)
    case Some(key) => Effect([], [], Raised(TypeError(key)))
    case None =>
      match render(template, message, cfg, Resolve(kwargs))
      case Failure(msg) => Effect([], LazyKeys(kwargs), Raised(FormatError(msg)))
      case Success(line) =>
        if cfg.raiseError then
          Effect([line], LazyKeys(kwargs) + LazyKeys(kwargs), Raised(LogarooError(line)))
        else Effect([line], LazyKeys(kwargs), Returned)
  }

  /** With `level_cfg=…, keep_markup=…` the call's keywords fail to merge
      before any is bound, so the `TypeError` names `keep_markup` although
      `level_cfg` comes first; nothing is printed or called. */
  lemma {:induction false} KeepMarkupClashReportedFirst(template: string, render: Renderer, cfg: Level,
                                                        message: string, v: Value, w: Value)
    ensures var kwargs := [Kwarg("level_cfg", Given(v)), Kwarg(KeepMarkup, Given(w))];
            && FirstClash(kwargs, FormatParameters()) == Some("level_cfg")
            && EmitEffect(template, render, cfg, message, kwargs) == Effect([], [], Raised(TypeError(KeepMarkup)))
  {
    var kwargs := [Kwarg("level_cfg", Given(v)), Kwarg(KeepMarkup, Given(w))];
    assert kwargs[1].key == KeepMarkup;
  }

  /** A call below the threshold prints nothing, calls no lazy argument and
      returns normally. */
  lemma LogBelowThresholdIsSilent(reg: Dict<Level>, threshold: string, template: string, render: Renderer,
                                  levelName: string, message: string, kwargs: seq<Kwarg>)
    requires WellFormed(reg) && threshold in reg.entries
    requires forall i :: 0 <= i < |kwargs| ==> kwargs[i].key !in LogParameters()
    requires PyStrings.Lower(levelName) in reg.entries && !Visible(reg, threshold, levelName)
    ensures LogEffect(reg, threshold, template, render, levelName, message, kwargs) == Effect([], [], Returned)
  {
  }

  /** A visible call that formats prints exactly the rendered line once, and then
      raises `LogarooError` carrying that text iff the level escalates. */
  lemma LogVisibleEmitsOnce(reg: Dict<Level>, threshold: string, template: string, render: Renderer,
                            levelName: string, message: string, kwargs: seq<Kwarg>)
    requires WellFormed(reg) && threshold in reg.entries
    requires forall i :: 0 <= i < |kwargs| ==> kwargs[i].key !in LogParameters() && kwargs[i].key !in FormatParameters()
    requires Visible(reg, threshold, levelName)
    requires render(template, message, reg.entries[PyStrings.Lower(levelName)], Resolve(kwargs)).Success?
    ensures var line := render(template, message, reg.entries[PyStrings.Lower(levelName)], Resolve(kwargs)).value;
            var e := LogEffect(reg, threshold, template, render, levelName, message, kwargs);
            && e.lines == [line]
            && (reg.entries[PyStrings.Lower(levelName)].raiseError ==> e.outcome == Raised(LogarooError(line)))
            && (!reg.entries[PyStrings.Lower(levelName)].raiseError ==> e.outcome == Returned)
  {
  }

  /** A call to an unregistered level raises `KeyError` and prints nothing. */
  lemma LogUnknownLevel(reg: Dict<Level>, threshold: string, template: string, render: Renderer,
                        levelName: string, message: string, kwargs: seq<Kwarg>)
    requires WellFormed(reg) && threshold in reg.entries
    requires forall i :: 0 <= i < |kwargs| ==> kwargs[i].key !in LogParameters()
    requires PyStrings.Lower(levelName) !in reg.entries
    ensures LogEffect(reg, threshold, template, render, levelName, message, kwargs)
            == Effect([], [], Raised(KeyError(PyStrings.Lower(levelName))))
  {
  }

  /** The default message of `log_to_all_levels`. */
  const SweepMessage := "Log with logger.{name}() ({no})"

  /** The keyword arguments `log_to_all_levels` passes for one level. */
  function SweepKwargs(l: Level): seq<Kwarg>
  {
    [Kwarg("name", Given(Text(l.name))), Kwarg("no", Given(Number(l.no)))]
  }

  /** `contextlib.suppress(LogarooError)`. */
  function Suppress(o: Outcome): (r: Outcome)
    ensures r.Raised? ==> !r.error.LogarooError?
    ensures o == Returned || !o.error.LogarooError? ==> r == o
  {
    if o.Raised? && o.error.LogarooError? then Returned else o
  }

  /** The effect of each call `log(level.name, template, name=..., no=...)`
      the loop of `log_to_all_levels` makes, one per level of `s`, with the
      threshold at `trace`. */
  function Rounds(reg: Dict<Level>, trace: string, template: string, render: Renderer, message: string,
                  s: seq<Level>): (r: seq<Effect>)
    requires WellFormed(reg) && trace in reg.entries
    ensures |r| == |s|
    decreases |s|
  {
    if s == [] then []
    else [LogEffect(reg, trace, template, render, s[0].name, message, SweepKwargs(s[0]))]
         + Rounds(reg, trace, template, render, message, s[1..])
  }

  /** Round `i` is the call for level `s[i]`. */
  lemma {:induction false} RoundAt(reg: Dict<Level>, trace: string, template: string, render: Renderer,
                                   message: string, s: seq<Level>, i: nat)
    requires WellFormed(reg) && trace in reg.entries
    requires i < |s|
    ensures Rounds(reg, trace, template, render, message, s)[i]
            == LogEffect(reg, trace, template, render, s[i].name, message, SweepKwargs(s[i]))
    decreases |s|
  {
    if i > 0 {
      RoundAt(reg, trace, template, render, message, s[1..], i - 1);
    }
  }

  /** The first `n` rounds of the loop taken together: lines and lazy calls
      accumulate, an escalation is suppressed, and any other error ends the
      loop with the rounds after it not made. */
  function SweepPrefix(rounds: seq<Effect>, n: nat): (e: Effect)
    requires n <= |rounds|
    ensures e.outcome.Raised? ==> !e.outcome.error.LogarooError?
    decreases n
  {
    if n == 0 then Effect([], [], Returned)
    else
      var done := SweepPrefix(rounds, n - 1);
      if done.outcome.Raised? then done
      else
        var e := rounds[n - 1];
        Effect(done.lines + e.lines, done.calls + e.calls, Suppress(e.outcome))
  }

  /** The whole loop of `log_to_all_levels` over `s`. */
  function Sweep(reg: Dict<Level>, trace: string, template: string, render: Renderer, message: string,
                 s: seq<Level>): (e: Effect)
    requires WellFormed(reg) && trace in reg.entries
    ensures e.outcome.Raised? ==> !e.outcome.error.LogarooError?
  {
    SweepPrefix(Rounds(reg, trace, template, render, message, s), |s|)
  }

  /** Once the loop has raised, the later rounds add nothing. */
  lemma {:induction false} SweepStopsAtError(rounds: seq<Effect>, j: nat, n: nat)
    requires j <= n <= |rounds|
    requires SweepPrefix(rounds, j).outcome.Raised?
    ensures SweepPrefix(rounds, n) == SweepPrefix(rounds, j)
    decreases n
  {
    if j < n {
      SweepStopsAtError(rounds, j, n - 1);
    }
  }

  /** The levels among the first `n` of `s` whose severity is at least
      `floor`, in order. */
  function Shown(s: seq<Level>, floor: int, n: nat): (r: seq<Level>)
    requires n <= |s|
    ensures |r| <= n
    decreases n
  {
    if n == 0 then []
    else Shown(s, floor, n - 1) + (if s[n - 1].no >= floor then [s[n - 1]] else [])
  }

  /** Every level of `s` is the one registered under its own name. */
  ghost predicate Registered(reg: Dict<Level>, s: seq<Level>)
  {
    forall i :: 0 <= i < |s| ==> Key(s[i]) in reg.entries && reg.entries[Key(s[i])] == s[i]
  }

  /** The line the sweep renders for level `l`. */
  function SweepLine(template: string, render: Renderer, message: string, l: Level): Result<string, string>
  {
    render(template, message, l, Resolve(SweepKwargs(l)))
  }

  /** Every level of `s` at or above `floor` renders without a formatting error. */
  ghost predicate RendersFrom(template: string, render: Renderer, message: string, s: seq<Level>, floor: int)
  {
    forall i :: 0 <= i < |s| && s[i].no >= floor ==> SweepLine(template, render, message, s[i]).Success?
  }

  /** One round of the sweep over a registered level: it prints the level's
      line iff the level is visible and formats, calls nothing, and ends the
      sweep only on a formatting error. */
  lemma SweepStep(reg: Dict<Level>, trace: string, template: string, render: Renderer, message: string, l: Level)
    requires WellFormed(reg) && trace in reg.entries
    requires Key(l) in reg.entries && reg.entries[Key(l)] == l
    ensures var e := LogEffect(reg, trace, template, render, l.name, message, SweepKwargs(l));
            && e.calls == []
            && (l.no < reg.entries[trace].no ==> e == Effect([], [], Returned))
            && (l.no >= reg.entries[trace].no && SweepLine(template, render, message, l).Success? ==>
                  e.lines == [SweepLine(template, render, message, l).value] && Suppress(e.outcome) == Returned)
            && (l.no >= reg.entries[trace].no && SweepLine(template, render, message, l).Failure? ==>
                  e.outcome == Raised(FormatError(SweepLine(template, render, message, l).error)))
  {
    PyStrings.LowerIdempotent(l.name);
    var kw := SweepKwargs(l);
    assert FirstClash(kw, LogParameters()).None?;
    assert FormatClash(kw).None?;
    assert LazyKeys(kw) == [];
  }

  /** `SweepStep` for the round at index `i` of a sweep. */
  lemma RoundStep(reg: Dict<Level>, trace: string, template: string, render: Renderer, message: string,
                  s: seq<Level>, i: nat)
    requires WellFormed(reg) && trace in reg.entries
    requires i < |s| && Key(s[i]) in reg.entries && reg.entries[Key(s[i])] == s[i]
    ensures var e := Rounds(reg, trace, template, render, message, s)[i];
            var line := SweepLine(template, render, message, s[i]);
            && e.calls == []
            && (s[i].no < reg.entries[trace].no ==> e == Effect([], [], Returned))
            && (s[i].no >= reg.entries[trace].no && line.Success? ==>
                  e.lines == [line.value] && Suppress(e.outcome) == Returned)
            && (s[i].no >= reg.entries[trace].no && line.Failure? ==>
                  e.outcome == Raised(FormatError(line.error)))
  {
    RoundAt(reg, trace, template, render, message, s, i);
    SweepStep(reg, trace, template, render, message, s[i]);
  }

  /** When nothing fails to format, the sweep returns normally, calls no lazy
      argument and prints exactly one line for each level at or above `trace`,
      in the order of `s`, and none for the others. */
  lemma {:induction false} SweepEmitsEachVisibleLevel(reg: Dict<Level>, trace: string, template: string,
                                                      render: Renderer, message: string, s: seq<Level>, n: nat)
    requires WellFormed(reg) && trace in reg.entries
    requires n <= |s|
    requires Registered(reg, s)
    requires RendersFrom(template, render, message, s, reg.entries[trace].no)
    ensures var e := SweepPrefix(Rounds(reg, trace, template, render, message, s), n);
            var shown := Shown(s, reg.entries[trace].no, n);
            && e.outcome == Returned
            && e.calls == []
            && PrintsInOrder(template, render, message, shown, e.lines)
    decreases n
  {
    if n > 0 {
      var rounds := Rounds(reg, trace, template, render, message, s);
      var floor := reg.entries[trace].no;
      SweepEmitsEachVisibleLevel(reg, trace, template, render, message, s, n - 1);
      RoundStep(reg, trace, template, render, message, s, n - 1);
      var prev := SweepPrefix(rounds, n - 1);
      var before := Shown(s, floor, n - 1);
      assert SweepPrefix(rounds, n).lines == prev.lines + rounds[n - 1].lines;
      if s[n - 1].no >= floor {
        var line := SweepLine(template, render, message, s[n - 1]);
        assert line.Success?;
        SweepLinesSnoc(template, render, message, before, prev.lines, s[n - 1], line.value);
      } else {
        assert rounds[n - 1].lines == [] && prev.lines + [] == prev.lines;
      }
    }
  }

  /** `lines` are the rendered lines of `shown`, one each, in order. */
  ghost predicate PrintsInOrder(template: string, render: Renderer, message: string,
                                shown: seq<Level>, lines: seq<string>)
  {
    |lines| == |shown|
    && forall j :: 0 <= j < |shown| ==> SweepLine(template, render, message, shown[j]) == Success(lines[j])
  }

  /** Extending the shown levels and the printed lines by one matching pair
      keeps them in step. */
  lemma SweepLinesSnoc(template: string, render: Renderer, message: string,
                       before: seq<Level>, lines: seq<string>, l: Level, line: string)
    requires PrintsInOrder(template, render, message, before, lines)
    requires SweepLine(template, render, message, l) == Success(line)
    ensures PrintsInOrder(template, render, message, before + [l], lines + [line])
  {
    forall j | 0 <= j < |before| + 1
      ensures SweepLine(template, render, message, (before + [l])[j]) == Success((lines + [line])[j])
    {
      if j < |before| {
        assert (before + [l])[j] == before[j] && (lines + [line])[j] == lines[j];
      }
    }
  }

  /** In a sweep over registered levels the only error that can end it is a
      formatting error. */
  lemma {:induction false} SweepOutcomeKinds(reg: Dict<Level>, trace: string, template: string, render: Renderer,
                                             message: string, s: seq<Level>, n: nat)
    requires WellFormed(reg) && trace in reg.entries
    requires n <= |s|
    requires Registered(reg, s)
    ensures SweepPrefix(Rounds(reg, trace, template, render, message, s), n).outcome.Raised? ==>
            SweepPrefix(Rounds(reg, trace, template, render, message, s), n).outcome.error.FormatError?
    decreases n
  {
    if n > 0 {
      SweepOutcomeKinds(reg, trace, template, render, message, s, n - 1);
      RoundStep(reg, trace, template, render, message, s, n - 1);
    }
  }

  /** The sweep reaches the first visible level whose line fails to format and
      ends there with that formatting error. */
  lemma SweepFailsAt(reg: Dict<Level>, trace: string, template: string, render: Renderer,
                     message: string, s: seq<Level>, i: nat)
    requires WellFormed(reg) && trace in reg.entries
    requires Registered(reg, s)
    requires i < |s| && s[i].no >= reg.entries[trace].no
    requires SweepLine(template, render, message, s[i]).Failure?
    ensures Sweep(reg, trace, template, render, message, s).outcome.Raised?
    ensures Sweep(reg, trace, template, render, message, s).outcome.error.FormatError?
  {
    var rounds := Rounds(reg, trace, template, render, message, s);
    SweepOutcomeKinds(reg, trace, template, render, message, s, i);
    if SweepPrefix(rounds, i).outcome.Raised? {
      SweepStopsAtError(rounds, i, |s|);
    } else {
      RoundStep(reg, trace, template, render, message, s, i);
      SweepStopsAtError(rounds, i + 1, |s|);
    }
  }

  /** `log_to_all_levels` as a whole: the effect, and the threshold it leaves. */
  datatype SweepResult = SweepResult(effect: Effect, threshold: string)

  /** The levels `log_to_all_levels` visits: the registry's values, sorted. */
  function SweepOrder(reg: Dict<Level>): (s: seq<Level>)
    requires WellFormed(reg)
    ensures Registered(reg, s)
  {
    var s := Sort(reg.Values());
    SweepOrderRegistered(reg, s);
    s
  }

  /** The sorted registry values are each stored under their own key. */
  lemma SweepOrderRegistered(reg: Dict<Level>, s: seq<Level>)
    requires WellFormed(reg) && s == Sort(reg.Values())
    ensures Registered(reg, s)
  {
    forall i | 0 <= i < |s| ensures Key(s[i]) in reg.entries && reg.entries[Key(s[i])] == s[i] {
      assert s[i] in multiset(s);
      ValueUnderOwnKey(reg, s[i]);
    }
  }

  /** `log_to_all_levels` as written: set the threshold to `trace` (raising if it
      is not registered), sweep, and restore the saved threshold only after a
      sweep that returned normally. */
  function LogToAllLevelsEffect(reg: Dict<Level>, threshold: string, template: string, render: Renderer,
                                message: string): (r: SweepResult)
    requires WellFormed(reg) && threshold in reg.entries
    ensures r.threshold in reg.entries
    ensures r.effect.outcome == Returned ==> r.threshold == threshold
    ensures r.effect.outcome.Raised? ==> !r.effect.outcome.error.LogarooError?
  {
    match ThresholdName(reg, "trace")
    case Failure(err) => SweepResult(Effect([], [], Raised(err)), threshold)
    case Success(trace) =>
      var e := Sweep(reg, trace, template, render, message, SweepOrder(reg));
      if e.outcome.Raised? then SweepResult(e, trace) else SweepResult(e, threshold)
  }

  /** `log_to_all_levels` with the restoration of the threshold guaranteed on
      every path once it has been switched to `trace`. */
  function RestoringLogToAllLevelsEffect(reg: Dict<Level>, threshold: string, template: string,
                                         render: Renderer, message: string): (r: SweepResult)
    requires WellFormed(reg) && threshold in reg.entries
    ensures r.threshold == threshold
  {
    match ThresholdName(reg, "trace")
    case Failure(err) => SweepResult(Effect([], [], Raised(err)), threshold)
    case Success(trace) => SweepResult(Sweep(reg, trace, template, render, message, SweepOrder(reg)), threshold)
  }

  /** `log_to_all_levels` when the threshold cannot be switched to `trace`. */
  lemma LogToAllLevelsRefused(reg: Dict<Level>, threshold: string, template: string, render: Renderer, message: string)
    requires WellFormed(reg) && threshold in reg.entries
    requires PyStrings.Lower("trace") !in reg.entries
    ensures LogToAllLevelsEffect(reg, threshold, template, render, message)
            == SweepResult(Effect([], [], Raised(ValueError(UnknownLevelMessage("trace", reg.keys)))), threshold)
    ensures RestoringLogToAllLevelsEffect(reg, threshold, template, render, message)
            == LogToAllLevelsEffect(reg, threshold, template, render, message)
  {
  }

  /** `log_to_all_levels` once the threshold is `trace`: the sweep's effect, and
      the threshold it leaves behind. */
  lemma LogToAllLevelsSwept(reg: Dict<Level>, threshold: string, template: string, render: Renderer,
                            message: string, trace: string)
    requires WellFormed(reg) && threshold in reg.entries
    requires trace == PyStrings.Lower("trace") && trace in reg.entries
    ensures var e := Sweep(reg, trace, template, render, message, SweepOrder(reg));
            && LogToAllLevelsEffect(reg, threshold, template, render, message)
               == (if e.outcome.Raised? then SweepResult(e, trace) else SweepResult(e, threshold))
            && RestoringLogToAllLevelsEffect(reg, threshold, template, render, message) == SweepResult(e, threshold)
  {
  }

  /** Restoring the threshold on every path changes nothing else: the lines,
      calls and outcome are those of `log_to_all_levels` as written. */
  lemma RestoringKeepsEffect(reg: Dict<Level>, threshold: string, template: string, render: Renderer, message: string)
    requires WellFormed(reg) && threshold in reg.entries
    ensures RestoringLogToAllLevelsEffect(reg, threshold, template, render, message).effect
            == LogToAllLevelsEffect(reg, threshold, template, render, message).effect
  {
  }

  /** `trace` names itself once lower-cased. */
  lemma TraceIsLowercase()
    ensures PyStrings.Lower("trace") == "trace"
  {
    PyStrings.LowerOfLowercase("trace");
  }

  /** `LogToAllLevelsRefused` for the literal key `"trace"`: without a `trace`
      level, `log_to_all_levels` raises the setter's error at once, prints
      nothing and leaves the threshold alone. */
  lemma LogToAllLevelsWithoutTrace(reg: Dict<Level>, threshold: string, template: string,
                                   render: Renderer, message: string)
    requires WellFormed(reg) && threshold in reg.entries && "trace" !in reg.entries
    ensures var r := LogToAllLevelsEffect(reg, threshold, template, render, message);
            && r.effect.lines == [] && r.effect.outcome.Raised? && r.effect.outcome.error.ValueError?
            && r.threshold == threshold
  {
    TraceIsLowercase();
    LogToAllLevelsRefused(reg, threshold, template, render, message);
  }

  /** With `trace` registered and every sweep line formatting, `log_to_all_levels`
      returns normally, prints one line per registered level at or above trace
      in ascending level order, and leaves the threshold as it found it. */
  lemma LogToAllLevelsEmitsEveryVisibleLevel(reg: Dict<Level>, threshold: string, template: string,
                                             render: Renderer, message: string)
    requires WellFormed(reg) && threshold in reg.entries && "trace" in reg.entries
    requires RendersFrom(template, render, message, SweepOrder(reg), reg.entries["trace"].no)
    ensures var r := LogToAllLevelsEffect(reg, threshold, template, render, message);
            var shown := Shown(SweepOrder(reg), reg.entries["trace"].no, |SweepOrder(reg)|);
            && r.effect.outcome == Returned
            && r.threshold == threshold
            && |r.effect.lines| == |shown|
            && forall j :: 0 <= j < |shown| ==> SweepLine(template, render, message, shown[j]) == Success(r.effect.lines[j])
  {
    TraceIsLowercase();
    SweepEmitsEachVisibleLevel(reg, "trace", template, render, message, SweepOrder(reg), |SweepOrder(reg)|);
  }

  /** As written, a formatting error during the sweep propagates out of
      `log_to_all_levels` before the saved threshold is put back, so a logger
      whose threshold was anything but `trace` is left at `trace`. */
  lemma SweepFormatErrorLeavesTrace(reg: Dict<Level>, threshold: string, template: string,
                                    render: Renderer, message: string)
    requires WellFormed(reg) && threshold in reg.entries && "trace" in reg.entries
    requires threshold != "trace"
    requires SweepLine(template, render, message, reg.entries["trace"]).Failure?
    ensures var r := LogToAllLevelsEffect(reg, threshold, template, render, message);
            && r.effect.outcome.Raised? && r.effect.outcome.error.FormatError?
            && r.threshold == "trace" && r.threshold != threshold
  {
    TraceIsLowercase();
    TraceSweepFails(reg, template, render, message);
  }

  /** With guaranteed restoration the same failing sweep leaves the threshold as
      it was and still reports the formatting error. */
  lemma RestoringSweepKeepsThreshold(reg: Dict<Level>, threshold: string, template: string,
                                     render: Renderer, message: string)
    requires WellFormed(reg) && threshold in reg.entries && "trace" in reg.entries
    requires SweepLine(template, render, message, reg.entries["trace"]).Failure?
    ensures var r := RestoringLogToAllLevelsEffect(reg, threshold, template, render, message);
            && r.effect.outcome.Raised? && r.effect.outcome.error.FormatError?
            && r.threshold == threshold
  {
    TraceIsLowercase();
    TraceSweepFails(reg, template, render, message);
  }

  /** A sweep whose `trace` line fails to format ends with that error. */
  lemma TraceSweepFails(reg: Dict<Level>, template: string, render: Renderer, message: string)
    requires WellFormed(reg) && "trace" in reg.entries
    requires SweepLine(template, render, message, reg.entries["trace"]).Failure?
    ensures Sweep(reg, "trace", template, render, message, SweepOrder(reg)).outcome.Raised?
    ensures Sweep(reg, "trace", template, render, message, SweepOrder(reg)).outcome.error.FormatError?
  {
    var s := SweepOrder(reg);
    var vs := reg.Values();
    assert reg.entries["trace"] in vs;
    assert reg.entries["trace"] in multiset(s);
    var i :| 0 <= i < |s| && s[i] == reg.entries["trace"];
    SweepFailsAt(reg, "trace", template, render, message, s, i);
  }
}
