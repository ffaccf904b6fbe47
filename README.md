# logaroo Logger, modelled in Dafny

This project models the engine of the logaroo logging library: the `Level`
record and the `Logger` class of `src/logaroo/logger.py`.

A `Logger` holds this state, which `__init__` (`logger.py:56-71`) assigns at
lines 65-71:

- a registry of levels, keyed by lower-cased level name and rebuilt from the
  sorted level list whenever it changes;
- a threshold, the name of a registered level;
- a layout template, a timestamp format and a timezone name;
- a table of per-level log functions whose keys mirror the registry;
- the creation time `_start`, which only feeds the clock readings of the
  rendered line and is not kept by the model.

`log` drops a call below the threshold. Otherwise it prints one rendered
line, and then raises `LogarooError` if the level escalates. The threshold
setter is case-insensitive and rejects unknown names with a `ValueError` that
lists every registered name. `add_level` rebuilds the registry with one more
level. `log_to_all_levels` switches the threshold to `trace`, logs once per
registered level in sorted order while suppressing `LogarooError`, and then
restores the threshold.

The project has six modules:

- `Wrappers` (`wrappers.dfy`): `Option` and `Result`.
- `PyStrings` (`strings.dfy`): the parts of Python `str` the engine relies on.
  These are `lower()`, `<`, `', '.join` and `in`.
- `Levels` (`levels.dfy`): the `Level` record and the total order that
  `@dataclass(order=True)` gives it. It also has `DEFAULT_LEVELS`, and
  `sorted` as an insertion sort. A total order has only one sorted
  arrangement, so any sorting algorithm gives the same result.
- `Registries` (`registry.dfy`): an insertion-ordered dictionary, and the
  dictionary comprehension of `_update_levels`. It also defines the
  log-function table and what `add_level` does to the registry, key by key.
- `Effects` (`effects.dfy`): pure functions for the effect of one `log` call
  and of one `log_to_all_levels` sweep. An effect is three things: the lines
  printed, the lazy keyword arguments called, and the outcome (it returns, or
  it raises a given exception). This module also holds the lemmas about
  these functions.
- `Logging` (`logger.dfy`): the `Logger` class itself.
  - Its fields are updated in place by its methods.
  - `Valid()` is the class invariant:
    - the registry is well formed;
    - the threshold is a registered key;
    - the log-function table mirrors the registry.
  - The logging methods (`Log`, `Emit`, `FormatMessage`, `CallLogFunc`,
    `SetLevel`, the sweep and `LogToAllLevels*`) are proved against the
    matching functions in `Effects`. The registry methods (`UpdateLevels`,
    `AddLevel`) are proved against `Registry` and the `AddLevel*` lemmas of
    `Registries`. The accessors (`GetAttr`, `LevelAttributes`, `CurrentLevel`,
    `SetTemplate`) state their results directly.
  - The console is an object holding the lines printed so far.
  - A ghost sequence records which lazy arguments were called.

Rendering (`_format_message` apart from resolving its arguments) is a
parameter of the model: a function from template, message, level and
resolved arguments to a line or a formatting error.

Three behaviours of the code are easy to misread:

- `log_to_all_levels` has no `try`/`finally` (`logger.py:188-193`). It puts
  the threshold back only after a sweep that ends normally, so an error other
  than `LogarooError` leaves the threshold at `trace`. See "Findings".
- When several levels share a case-insensitive name, the registry keeps, for
  each lower-cased name, the level that sorts last in the dataclass order
  (`logger.py:106-108`). Insertion order plays no part.
- The sweep sets the threshold to the name `trace` (`logger.py:189`), not to
  the lowest registered level. If `trace` is not registered, the setter
  raises `ValueError` and nothing is logged.

## Model

| member | source | states |
|---|---|---|
| PyStrings.LowerChar | src/logaroo/logger.py:81 | the result is never an upper-case ASCII letter; an upper-case letter maps to its lower-case form and every other character is unchanged |
| PyStrings.Lower | src/logaroo/logger.py:105-112 | `str.lower()`: a string of the same length; `LowerAt` gives it character by character |
| PyStrings.LowerAt | src/logaroo/logger.py:81 | `lower()` works character by character: position `i` of the result is `LowerChar` of position `i` of the input |
| PyStrings.LowerIdempotent | src/logaroo/logger.py:85 | lower-casing a lower-cased name changes nothing, so a stored threshold is its own key |
| PyStrings.LowerOfLowercase | src/logaroo/logger.py:37 | a string without upper-case letters is its own lower-case form |
| PyStrings.Less | src/logaroo/logger.py:25 | definition: Python's `str <`, lexicographic by code point with a proper prefix first; the dataclass order compares `name`, `color` and `icon` with it, and the `Less*` lemmas show it is a strict total order |
| PyStrings.LessIrreflexive | src/logaroo/logger.py:25 | Python string `<` is irreflexive |
| PyStrings.LessAsymmetric | src/logaroo/logger.py:25 | Python string `<` is asymmetric |
| PyStrings.LessTransitive | src/logaroo/logger.py:25 | Python string `<` is transitive |
| PyStrings.LessTotal | src/logaroo/logger.py:25 | any two distinct strings are ordered one way or the other |
| PyStrings.Join | src/logaroo/logger.py:82 | definition: `sep.join(parts)`, the parts with `sep` between each pair, as in `', '.join(self.levels)`; `JoinContainsParts` proves every part occurs in it |
| PyStrings.JoinContainsParts | src/logaroo/logger.py:82 | every part occurs in `sep.join(parts)`, whatever the separator |
| Levels.Key | src/logaroo/logger.py:105-108 | definition: a level's registry key is `level.name.lower()` |
| Levels.Less | src/logaroo/logger.py:25-33 | definition: `<` of `@dataclass(order=True)`, the field tuples `(no, name, color, icon, raise_error)` compared lexicographically with `False < True`; the `Less*` lemmas show it is a strict total order |
| Levels.LessEq | src/logaroo/logger.py:25-33 | definition: `<=` of the dataclass, equal tuples or `<`; `LessEqTransitive` and `LessEqAntisymmetric` make it a total order |
| Levels.LessIrreflexive | src/logaroo/logger.py:25-33 | the dataclass `<` on levels is irreflexive |
| Levels.LessAsymmetric | src/logaroo/logger.py:25-33 | the dataclass `<` on levels is asymmetric |
| Levels.LessTransitive | src/logaroo/logger.py:25-33 | the dataclass `<` on levels is transitive |
| Levels.LessTotal | src/logaroo/logger.py:25-33 | two levels are equal or one sorts before the other, comparing all five fields |
| Levels.LessEqTransitive | src/logaroo/logger.py:25-33 | `<=` on levels is transitive |
| Levels.LessEqAntisymmetric | src/logaroo/logger.py:25-33 | two levels each `<=` the other are equal |
| Levels.NotLessEq | src/logaroo/logger.py:25-33 | when `a <= b` fails, `b < a` |
| Levels.Max | src/logaroo/logger.py:106-108 | the later of two levels is one of them and not below either |
| Levels.Insert | src/logaroo/logger.py:106 | inserting into a sorted list gives a sorted list with exactly one more copy of the new level |
| Levels.InsertKeepsLowerBound | src/logaroo/logger.py:106 | a level that is `<=` the inserted level and every element stays `<=` every element of the result |
| Levels.Sort | src/logaroo/logger.py:106 | `sorted(levels)` is ascending and a permutation of its input |
| Levels.SortKeepsElements | src/logaroo/logger.py:106 | the sorted list holds exactly the input's levels |
| Levels.SortedUnique | src/logaroo/logger.py:106 | two sorted lists with the same elements, counted with multiplicity, are equal, so `sorted` has only one possible result |
| Levels.SortSorted | src/logaroo/logger.py:106 | sorting an already sorted list returns it unchanged |
| Levels.SortPermutationInvariant | src/logaroo/logger.py:177-182 | `sorted` depends only on which levels are given, not their order, so `add_level` prepending the new level does not matter |
| Levels.IncreasingIsSorted | src/logaroo/logger.py:36-50 | a list whose severity numbers strictly increase is sorted |
| Levels.DefaultLevels | src/logaroo/logger.py:36-50 | `DEFAULT_LEVELS` has seven levels with strictly increasing numbers, and only the last (`critical`) escalates |
| Levels.DefaultLevelsSorted | src/logaroo/logger.py:36-50 | the default levels are already in sorted order |
| Registries.Dict.Put | src/logaroo/logger.py:104-108 | `d[k] = v` keeps the dictionary valid and updates the mapping at `k`; an existing key keeps its position and a new key is appended |
| Registries.Dict.Values | src/logaroo/logger.py:180 | `d.values()` lists the value of each key, in key order, and contains every stored value |
| Registries.Comprehend | src/logaroo/logger.py:104-108 | a dict comprehension yields a valid dictionary: every key listed exactly once, and the listed keys are the mapped ones |
| Registries.ComprehendHasKey | src/logaroo/logger.py:104-108 | a key is in the comprehension iff some element has it |
| Registries.ComprehendLastWins | src/logaroo/logger.py:104-108 | the value under each key comes from the last element with that key |
| Registries.ComprehendKeys | src/logaroo/logger.py:104-108 | two comprehensions over the same list have the same key order and key set, whatever their values |
| Registries.Mirror | src/logaroo/logger.py:104-107 | the mirror table is valid, has the registry's keys in the registry's order, and binds each key to its own log function |
| Registries.GreatestWithKeyUnique | src/logaroo/logger.py:106-108 | only one level can be the greatest with a given key |
| Registries.BindLogFunc | src/logaroo/logger.py:104-107 | definition: `self._create_log_func(level.name.lower())`, a log function bound to the level's lower-cased name, which the closure of lines 114-119 passes to `log` |
| Registries.Registry | src/logaroo/logger.py:108 | definition: the comprehension `{l.name.lower(): l for l in sorted(levels)}`; `RegistryOf` states its keys and entries |
| Registries.DispatchTable | src/logaroo/logger.py:104-107 | definition: the comprehension building `_log_funcs` over the same sorted list; `DispatchTableMirrorsRegistry` ties it to the registry |
| Registries.RegistryOf | src/logaroo/logger.py:102-108 | `_update_levels` yields a well-formed registry whose keys are exactly the lower-cased input names; under each key is the greatest input level with that name |
| Registries.RegistryAt | src/logaroo/logger.py:102-108 | the same as `RegistryOf`, for one key |
| Registries.RegistryKeyAt | src/logaroo/logger.py:108 | a key is registered iff some input level's lower-cased name is that key |
| Registries.RegistryEntryAt | src/logaroo/logger.py:106-108 | the level registered under a key is the greatest input level with that key |
| Registries.SortedLastIsGreatest | src/logaroo/logger.py:106-108 | in a sorted list, the last element with a key is the greatest with it |
| Registries.DispatchTableMirrorsRegistry | src/logaroo/logger.py:104-108 | `_log_funcs` has the same keys as the registry, in the same order, and each log function is bound to its own key |
| Registries.ValueUnderOwnKey | src/logaroo/logger.py:180 | every value of a well-formed registry is stored under its own lower-cased name |
| Registries.AddedEntry | src/logaroo/logger.py:176-182 | definition: after `add_level`, an old key keeps its level, the new key gets the new level, and a shared key gets the one of the two that sorts last; `AddLevelEntryAt` proves it is the entry of the rebuilt registry |
| Registries.AddLevelKeyAt | src/logaroo/logger.py:173-182 | after `add_level` a key is registered iff it was registered before or is the new level's key |
| Registries.AddLevelEntryAt | src/logaroo/logger.py:173-182 | after `add_level` the entry under each key is given by `AddedEntry`: the old entry, the new level, or the later of the two |
| Registries.AddLevelEntries | src/logaroo/logger.py:173-182 | `AddLevelKeyAt` and `AddLevelEntryAt` for every key: no old key is lost, one key may be added, and only the entry under the new level's key changes |
| Registries.AddLevelKeys | src/logaroo/logger.py:173-182 | the key set after `add_level` is the old key set plus the new level's key |
| Registries.KeyIsLowercase | src/logaroo/logger.py:85 | every registry key is its own lower-case form |
| Registries.TraceKey | src/logaroo/logger.py:37 | the default `trace` level is keyed `trace` |
| Registries.InfoKey | src/logaroo/logger.py:39 | the default `info` level is keyed `info` |
| Registries.DefaultsRegisterTraceAndInfo | src/logaroo/logger.py:36-50 | the default registry contains `trace` and `info` |
| Effects.UnknownLevelMessage | src/logaroo/logger.py:82 | definition: the setter's message `unknown level '<name>'. Use one of <keys joined by ', '>`; `UnknownLevelMessageNames` proves it names the rejected level and every key |
| Effects.ThresholdName | src/logaroo/logger.py:78-85 | the setter succeeds iff the lower-cased name is registered, and then stores that lower-cased name; otherwise it raises `ValueError`, whose message contains the rejected name and every registered name |
| Effects.UnknownLevelMessageNames | src/logaroo/logger.py:82 | the setter's message contains the rejected name and every registered name |
| Effects.ThresholdNameIgnoresCase | src/logaroo/logger.py:81-85 | setting `"DeBUg"` selects the registered `debug` level and stores `"debug"` |
| Effects.LookupLevel | src/logaroo/logger.py:110-112 | `_get_level_cfg` finds a level iff the lower-cased name is registered, and the level found is a registered level with that key (so the one registered under it); otherwise it raises `KeyError` with the lower-cased name |
| Effects.LogParameters | src/logaroo/logger.py:149 | definition: the parameters `self`, `level` and `message` of `log`, which a keyword argument may not repeat |
| Effects.FormatParameters | src/logaroo/logger.py:123-130 | definition: the parameters `self`, `message`, `level_cfg` and `keep_markup` of `_format_message` |
| Effects.ClosureParameters | src/logaroo/logger.py:117 | definition: the one named parameter `message` of the per-level closure |
| Effects.FirstClash | src/logaroo/logger.py:149-155 | reports a clashing keyword argument iff some argument reuses a parameter name; the key it reports is that of the first such argument in argument order, as Python's binding reports it |
| Effects.FormatClash | src/logaroo/logger.py:155 | the `_format_message` call fails iff some argument reuses one of its parameter names; a caller's `keep_markup` is reported whatever its position, since merging the call's keywords fails before binding; otherwise the first clashing argument is reported |
| Effects.KeepMarkupClashReportedFirst | src/logaroo/logger.py:155 | with `level_cfg=…, keep_markup=…` the `TypeError` names `keep_markup`, though the first clashing argument is `level_cfg`, and nothing is printed or called |
| Effects.Resolve | src/logaroo/logger.py:136-137 | `format_args` has one entry per keyword argument, in order: the key and the value, given or produced by the callable |
| Effects.LazyKeys | src/logaroo/logger.py:136-137 | the callables called are exactly the callable keyword arguments, at most one call per argument |
| Effects.LazyKeysAppend | src/logaroo/logger.py:136-137 | the comprehension calls the callables in argument order: resolving a concatenation calls those of each part in turn |
| Effects.LazyKeysCount | src/logaroo/logger.py:136-137 | one resolution calls each callable keyword argument exactly once: as many calls as callable arguments |
| Effects.Visible | src/logaroo/logger.py:151-152 | definition: a call passes the filter iff its lower-cased level is registered with a number at or above the threshold's; `LogBelowThresholdIsSilent` and `LogVisibleEmitsOnce` use it |
| Effects.LogEffect | src/logaroo/logger.py:149-159 | one `log` call prints at most one line; it prints or calls a lazy argument only for a registered level at or above the threshold; an escalation carries the printed line; a printed line is followed by a normal return or by the escalation |
| Effects.EmitEffect | src/logaroo/logger.py:155-159 | past the threshold: at most one line, and an escalation carries exactly that line; a clash raises the `TypeError` `FormatClash` names |
| Effects.LogBelowThresholdIsSilent | src/logaroo/logger.py:151-153 | a call below the threshold prints nothing, calls no lazy argument and returns normally |
| Effects.LogVisibleEmitsOnce | src/logaroo/logger.py:151-159 | a visible call that formats prints exactly the rendered line once, then raises `LogarooError` with that text iff the level escalates |
| Effects.LogUnknownLevel | src/logaroo/logger.py:110-112 | a call to an unregistered level raises `KeyError` with the lower-cased name and prints nothing |
| Effects.Suppress | src/logaroo/logger.py:191 | `suppress(LogarooError)` never lets a `LogarooError` through and leaves every other outcome as it is |
| Effects.SweepKwargs | src/logaroo/logger.py:192 | definition: the keyword arguments `name=level.name, no=level.no` of one sweep call; `SweepStep` shows they never clash and call nothing |
| Effects.Rounds | src/logaroo/logger.py:190-192 | one effect per level visited; `RoundAt` shows round `i` is the `log` call for the `i`-th level |
| Effects.RoundAt | src/logaroo/logger.py:190-192 | round `i` of the sweep is the `log` call for the `i`-th sorted level, with its name and number as arguments |
| Effects.SweepPrefix | src/logaroo/logger.py:190-192 | the rounds made so far never end with a `LogarooError` |
| Effects.Sweep | src/logaroo/logger.py:190-192 | the whole loop never ends with a `LogarooError` |
| Effects.SweepStopsAtError | src/logaroo/logger.py:190-192 | once a round raises something other than `LogarooError`, later rounds are not made |
| Effects.SweepStep | src/logaroo/logger.py:190-192 | one round over a registered level calls no lazy argument; it prints the level's rendered line iff the level is at or above `trace` and formats; only a formatting error ends the sweep |
| Effects.RoundStep | src/logaroo/logger.py:190-192 | `SweepStep` for the round at index `i` |
| Effects.Shown | src/logaroo/logger.py:190-192 | the levels of the first `n` rounds at or above the threshold, in order, at most `n` of them; `SweepEmitsEachVisibleLevel` proves they are exactly the ones printed |
| Effects.SweepLine | src/logaroo/logger.py:155 | definition: the rendering of the sweep template for one level with its name and number; `SweepEmitsEachVisibleLevel` and `SweepFailsAt` relate it to what the sweep prints or raises |
| Effects.SweepEmitsEachVisibleLevel | src/logaroo/logger.py:190-192 | when nothing fails to format, the sweep returns normally and calls nothing; it prints exactly the rendered lines of the levels at or above `trace`, in sorted order |
| Effects.SweepOutcomeKinds | src/logaroo/logger.py:190-192 | a sweep over registered levels can only end with a formatting error |
| Effects.SweepFailsAt | src/logaroo/logger.py:190-192 | a visible level whose line fails to format makes the sweep end with a formatting error |
| Effects.SweepOrder | src/logaroo/logger.py:190 | every level visited is the one registered under its own name |
| Effects.SweepOrderRegistered | src/logaroo/logger.py:190 | the sorted registry values are each stored under their own key |
| Effects.LogToAllLevelsEffect | src/logaroo/logger.py:184-193 | as written: the threshold left behind is registered, and it is the saved threshold whenever the call returns normally; no `LogarooError` escapes |
| Effects.RestoringLogToAllLevelsEffect | src/logaroo/logger.py:184-193 | with guaranteed restoration, the threshold after the call is the saved one on every path |
| Effects.LogToAllLevelsRefused | src/logaroo/logger.py:188-189 | without `trace`, the call raises the setter's `ValueError` at once, prints nothing and keeps the threshold, in both versions |
| Effects.LogToAllLevelsSwept | src/logaroo/logger.py:188-193 | with `trace`, the effect is the sweep's; the version as written restores the threshold only if the sweep returned, and the corrected version always restores it |
| Effects.RestoringKeepsEffect | src/logaroo/logger.py:184-193 | guaranteed restoration changes nothing but the threshold: same lines, calls and outcome |
| Effects.TraceIsLowercase | src/logaroo/logger.py:189 | `"trace".lower()` is `"trace"` |
| Effects.LogToAllLevelsWithoutTrace | src/logaroo/logger.py:188-189 | the corollary of `LogToAllLevelsRefused` for the literal key `"trace"`, as the methods use it: without `trace`, nothing is printed, a `ValueError` is raised and the threshold is unchanged |
| Effects.LogToAllLevelsEmitsEveryVisibleLevel | src/logaroo/logger.py:184-193 | with `trace` registered and every line formatting, the call returns normally and restores the threshold; it prints one line per registered level at or above `trace`, in ascending order |
| Effects.SweepFormatErrorLeavesTrace | src/logaroo/logger.py:188-193 | as written, a formatting error on the `trace` line propagates and leaves the threshold at `trace` instead of the saved one |
| Effects.RestoringSweepKeepsThreshold | src/logaroo/logger.py:184-193 | with guaranteed restoration the same failure still raises the formatting error but keeps the saved threshold |
| Effects.TraceSweepFails | src/logaroo/logger.py:190-192 | a sweep whose `trace` line fails to format ends with that formatting error |
| Logging.Console.Print | src/logaroo/logger.py:155 | `console.print` appends exactly the given line |
| Logging.LevelsOrDefault | src/logaroo/logger.py:65 | definition: `DEFAULT_LEVELS if levels is None else levels` |
| Logging.NoAttributeMessage | src/logaroo/logger.py:166 | definition: the `AttributeError` text `'Logger' has no attribute '<name>'` |
| Logging.Logger.Valid | src/logaroo/logger.py:65-66 | definition: the class invariant set up by `__init__` and kept by `_update_levels` (lines 102-108) and the setter: the registry is well formed, the threshold is a registry key, and `_log_funcs` mirrors the registry |
| Logging.Logger.constructor | src/logaroo/logger.py:56-69 | the new logger is valid; it holds `_update_levels(levels)` as its registry, the lower-cased initial level as its threshold, and the given template, formats and console, with no lazy argument called yet |
| Logging.Logger.New | src/logaroo/logger.py:56-69 | `Logger(...)` succeeds iff the initial level's lower-cased name is registered, using the default levels when none are given, and stores the template, timestamp format, time zone, console and renderer it was given; otherwise it raises the setter's `ValueError` |
| Logging.Logger.UpdateLevels | src/logaroo/logger.py:102-108 | returns the registry of the given levels and sets `_log_funcs` to its mirror |
| Logging.Logger.CurrentLevel | src/logaroo/logger.py:73-76 | the `level` getter returns a registered, lower-case name |
| Logging.Logger.SetLevel | src/logaroo/logger.py:78-85 | keeps the invariant; stores the lower-cased name iff it is registered; otherwise raises the `ValueError` naming the level and every registered name, and leaves the threshold unchanged |
| Logging.Logger.LevelCfg | src/logaroo/logger.py:87-90 | `level_cfg` is the level stored under the threshold, the one `_get_level_cfg` finds |
| Logging.Logger.SetTemplate | src/logaroo/logger.py:97-100 | the template setter stores the new template |
| Logging.Logger.FormatMessage | src/logaroo/logger.py:123-147 | an argument named like a parameter raises the `TypeError` `FormatClash` names (a `keep_markup` first) before anything is called; otherwise each lazy argument is called once, in order, and the result is the rendered line or the formatting error |
| Logging.Logger.Log | src/logaroo/logger.py:149-159 | the console gains exactly the lines of `LogEffect`, the lazy calls are those of `LogEffect`, and the call ends as `LogEffect` says |
| Logging.Logger.Emit | src/logaroo/logger.py:155-159 | printing and escalation exactly as `EmitEffect` says |
| Logging.Logger.GetAttr | src/logaroo/logger.py:161-167 | `__getattr__` finds a log function iff the name is a registry key exactly as written, bound to that key; otherwise it raises `AttributeError` |
| Logging.Logger.CallLogFunc | src/logaroo/logger.py:114-119 | `logger.<name>(...)`, the `__getattr__` lookup followed by a call of the closure, raises `AttributeError` with no effect for an unregistered name; otherwise a keyword argument named `message` raises `TypeError('message')` with no effect, and any other call has exactly the effect of `log` at that level; it never raises the `KeyError` of `_get_level_cfg` (logger.py:112); a `KeyError` from `str.format` is the model's `FormatError` |
| Logging.Logger.LevelAttributes | src/logaroo/logger.py:169-171 | the names `__dir__` adds are exactly the registered keys, each once |
| Logging.Logger.AddLevel | src/logaroo/logger.py:173-182 | keeps the invariant, so the threshold stays registered; the registry becomes `_update_levels` of the new level plus the old values, and the key set grows by exactly the new level's key |
| Logging.Logger.AddPlainLevel | src/logaroo/logger.py:173-182 | `add_level` without `raise_error`: the same registry update with a level that does not escalate |
| Logging.Logger.InstallLevels | src/logaroo/logger.py:177 | assigning a registry that still holds the threshold restores the invariant |
| Logging.Logger.SweepLevels | src/logaroo/logger.py:190-192 | the loop prints and calls exactly what `Sweep` says, and ends as it says |
| Logging.Logger.SweepRound | src/logaroo/logger.py:191-192 | one iteration has exactly the effect of round `i` |
| Logging.Logger.SweepThenRestore | src/logaroo/logger.py:190-193 | the sweep, then the saved threshold put back only if the sweep returned |
| Logging.Logger.SweepAndRestore | src/logaroo/logger.py:190-193 | the sweep, then the saved threshold put back on every path |
| Logging.Logger.LogToAllLevels | src/logaroo/logger.py:184-193 | as written: without `trace`, the setter's `ValueError` and no change at all; with `trace`, exactly the sweep's lines, calls and outcome, and a threshold that is restored only if the sweep returned |
| Logging.Logger.LogToAllLevelsDefault | src/logaroo/logger.py:184-193 | `log_to_all_levels()` with the default template has the effect `LogToAllLevels` states for that template |
| Logging.Logger.LogToAllLevelsRestoring | src/logaroo/logger.py:184-193 | corrected: the same effect, and the threshold is the saved one on every path |

## Left out

- Console output goes to an object that keeps the printed lines. Rich markup
  and terminal I/O (`logaroo.console`) are not part of this model.
- The clock is not modelled: `datetime.now`, the time zone, `strftime` and the
  `time.perf_counter` elapsed time. The timestamp format and time zone are
  stored as plain strings, and `_start` is not kept.
- Python's `str.format` is not modelled; rendering is a parameter of the
  logger. The `level=name.upper()` argument and format options such as
  `{level:<8}` live inside it. Every exception `str.format` can raise becomes
  one formatting error.
- `keep_markup` is ignored by the source. The renderer is a function of its
  arguments, so the escalation message equals the printed line. In the
  program the two could differ in their time fields.
- PyStrings.LowerChar: lower-cases ASCII letters only. Python's full Unicode
  case mapping is not modelled.
- Lazy keyword arguments are modelled as callables that return a fixed value.
  What a callable does apart from being called, and exceptions it raises, are
  not modelled.
- Logging.Logger.GetAttr: models the lookup in `_log_funcs`. Python consults
  `__getattr__` only after ordinary attribute lookup fails, so a level named
  like an existing attribute (`log`, `level`) is shadowed. That is not
  modelled.
- Logging.Logger.LevelAttributes: models only the names `__dir__` adds. The
  inherited `super().__dir__()` list is not modelled.
- The `AttributeError` message uses the class name `Logger`; subclasses are
  not modelled.
- `sorted` is Python's Timsort; the model uses an insertion sort.
  `Levels.SortedUnique` shows that both give the same list.
- Of the default registry, only two facts are proved: it contains `trace` and
  `info`, and the default list is already sorted. Its full contents are not
  stated.
- `src/logaroo/__init__.py` is not part of this model. It builds a default
  logger from environment variables.
- The console and the renderer are constructor parameters. In the source
  they are the module-level `console` and `_format_message`.
- The default sweep template `"Log with logger.{name}() ({no})"` is the
  constant `Effects.SweepMessage`, used by `LogToAllLevelsDefault`.
- Effects.Resolve: a keyword-argument value is text or an integer. Values of
  any other Python type (a float such as `pi=3.14159`, a list, an object) and
  the format specifications that act on them live inside the renderer and are
  not modelled.
- Logging.Logger.Valid: the invariant holds only across the modelled methods.
  `self.levels` is a public, mutable dictionary; a caller that edits it
  directly (say `logger.levels.pop("info")` at threshold `info`) breaks it, and
  the next visible `log` then raises `KeyError` from `level_cfg`. Such direct
  edits are not modelled. Nor are in-place edits of `Level` objects (a
  non-frozen dataclass) and their sharing: every logger built without
  `levels` holds the same `DEFAULT_LEVELS` instances, so
  `logger.levels["info"].no = 1` would change every such logger. In the model
  a `Level` is an immutable value.
- Logging.Logger.CallLogFunc: passing the message by keyword
  (`logger.info(message="x")`, `logger.log(level="info", message="x")`) is not
  modelled. The message and level are always positional, and a keyword
  argument named `message` or `level` is treated as a clash.
- Logging.Logger.Log: keyword arguments are a sequence of key and argument
  pairs, which may repeat a key; Python's `**kwargs` cannot. A repeated key
  is not rejected, and every copy of a lazy argument is called.

## Findings

| source | as written | input that shows it | evidently intended | confidence | as-written member | corrected member |
|---|---|---|---|---|---|---|
| src/logaroo/logger.py:188-193 | the saved threshold is written back only after the loop ends normally; a `log` call in the sweep can raise an error other than `LogarooError` (a formatting error in the template) that is not suppressed, and it skips the restore | a logger at threshold `info` calling `log_to_all_levels("{missing}")`: formatting the `trace` line raises, and the threshold stays `trace` | the threshold is restored on every path, as with `try`/`finally`: `examples/basic_logging.py:27-28` calls `log_to_all_levels()` and then logs "The log level is still …", relying on the threshold coming back | not executed | Effects.SweepFormatErrorLeavesTrace, Logging.Logger.LogToAllLevels | Effects.RestoringSweepKeepsThreshold, Logging.Logger.LogToAllLevelsRestoring |
