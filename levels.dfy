/** The `Level` record of `logger.py`, the ordering that `@dataclass(order=True)`
    gives it, the built-in default levels and Python's `sorted` over levels. */
module Levels {
  import PyStrings

  /** Configuration of one log level: severity number, name, colour markup,
      icon, and whether logging at it escalates to an error. */
  datatype Level = Level(no: int, name: string, color: string, icon: string, raiseError: bool)

  /** The registry key of a level: its lower-cased name. */
  function Key(l: Level): string
  {
    PyStrings.Lower(l.name)
  }

  /** `a < b` for the dataclass: the tuples `(no, name, color, icon, raise_error)`
      compared lexicographically, with `False < True`. */
  predicate Less(a: Level, b: Level)
  {
    || a.no < b.no
    || (a.no == b.no && PyStrings.Less(a.name, b.name))
    || (a.no == b.no && a.name == b.name && PyStrings.Less(a.color, b.color))
    || (a.no == b.no && a.name == b.name && a.color == b.color && PyStrings.Less(a.icon, b.icon))
    || (a.no == b.no && a.name == b.name && a.color == b.color && a.icon == b.icon
        && !a.raiseError && b.raiseError)
  }

  /** `a <= b` for the dataclass: the tuples are equal or `a < b`. */
  predicate LessEq(a: Level, b: Level)
  {
    a == b || Less(a, b)
  }

  lemma LessIrreflexive(a: Level)
    ensures !Less(a, a)
  {
    PyStrings.LessIrreflexive(a.name);
    PyStrings.LessIrreflexive(a.color);
    PyStrings.LessIrreflexive(a.icon);
  }

  lemma LessAsymmetric(a: Level, b: Level)
    requires Less(a, b)
    ensures !Less(b, a)
  {
    if a.no == b.no {
      PyStrings.LessIrreflexive(a.name);
      PyStrings.LessIrreflexive(a.color);
      PyStrings.LessIrreflexive(a.icon);
      if PyStrings.Less(a.name, b.name) {
        PyStrings.LessAsymmetric(a.name, b.name);
      } else if a.name == b.name && PyStrings.Less(a.color, b.color) {
        PyStrings.LessAsymmetric(a.color, b.color);
      } else if a.name == b.name && a.color == b.color && PyStrings.Less(a.icon, b.icon) {
        PyStrings.LessAsymmetric(a.icon, b.icon);
      }
    }
  }

  lemma LessTransitive(a: Level, b: Level, c: Level)
    requires Less(a, b) && Less(b, c)
    ensures Less(a, c)
  {
    if a.no == b.no == c.no {
      if PyStrings.Less(a.name, b.name) && PyStrings.Less(b.name, c.name) {
        PyStrings.LessTransitive(a.name, b.name, c.name);
      } else if a.name == b.name == c.name {
        if PyStrings.Less(a.color, b.color) && PyStrings.Less(b.color, c.color) {
          PyStrings.LessTransitive(a.color, b.color, c.color);
        } else if a.color == b.color == c.color {
          if PyStrings.Less(a.icon, b.icon) && PyStrings.Less(b.icon, c.icon) {
            PyStrings.LessTransitive(a.icon, b.icon, c.icon);
          }
        }
      }
    }
  }

  /** The dataclass order is total: two levels are equal or one sorts first. */
  lemma LessTotal(a: Level, b: Level)
    ensures a == b || Less(a, b) || Less(b, a)
  {
    PyStrings.LessTotal(a.name, b.name);
    PyStrings.LessTotal(a.color, b.color);
    PyStrings.LessTotal(a.icon, b.icon);
  }

  lemma LessEqTransitive(a: Level, b: Level, c: Level)
    requires LessEq(a, b) && LessEq(b, c)
    ensures LessEq(a, c)
  {
    if a != b && b != c {
      LessTransitive(a, b, c);
    }
  }

  lemma LessEqAntisymmetric(a: Level, b: Level)
    requires LessEq(a, b) && LessEq(b, a)
    ensures a == b
  {
    if a != b {
      LessAsymmetric(a, b);
    }
  }

  /** When `a <= b` fails, `b < a`. */
  lemma NotLessEq(a: Level, b: Level)
    requires !LessEq(a, b)
    ensures Less(b, a)
  {
    LessTotal(a, b);
  }

  /** The later of two levels in the dataclass order. */
  function Max(a: Level, b: Level): (r: Level)
    ensures r == a || r == b
    ensures LessEq(a, r) && LessEq(b, r)
  {
    if LessEq(a, b) then b
    else
      NotLessEq(a, b);
      a
  }

  const TraceLevel := Level(5, "trace", "[cyan]", "\U{270F}\U{FE0F}", false)
  const DebugLevel := Level(10, "debug", "[blue]", "\U{1F41E}", false)
  const InfoLevel := Level(20, "info", "[white]", "\U{2139}\U{FE0F}", false)
  const SuccessLevel := Level(25, "success", "[green]", "\U{2705}", false)
  const WarningLevel := Level(30, "warning", "[yellow]", "\U{26A0}\U{FE0F}", false)
  const ErrorLevel := Level(40, "error", "[red]", "\U{274C}", false)
  const CriticalLevel := Level(50, "critical", "[white on red]", "\U{2620}\U{FE0F}", true)

  /** `DEFAULT_LEVELS`: trace, debug, info, success, warning, error and
      critical, the last one escalating. */
  function DefaultLevels(): (r: seq<Level>)
    ensures |r| == 7
    ensures forall i, j :: 0 <= i < j < |r| ==> r[i].no < r[j].no
    ensures forall i :: 0 <= i < |r| ==> (r[i].raiseError <==> i == |r| - 1)
  {
    [TraceLevel, DebugLevel, InfoLevel, SuccessLevel, WarningLevel, ErrorLevel, CriticalLevel]
  }

  ghost predicate IsSorted(s: seq<Level>)
  {
    forall i, j {:trigger LessEq(s[i], s[j])} :: 0 <= i < j < |s| ==> LessEq(s[i], s[j])
  }

  /** Insert `x` into a sorted sequence, before the first element not below it. */
  function Insert(x: Level, s: seq<Level>): (r: seq<Level>)
    requires IsSorted(s)
    ensures IsSorted(r)
    ensures multiset(r) == multiset(s) + multiset{x}
    decreases |s|, 0
  {
    if s == [] then [x]
    else if LessEq(x, s[0]) then
      assert forall j :: 0 <= j < |s| ==> LessEq(x, s[j]) by {
        forall j | 0 <= j < |s| ensures LessEq(x, s[j]) {
          if j > 0 { LessEqTransitive(x, s[0], s[j]); }
        }
      }
      [x] + s
    else
      NotLessEq(x, s[0]);
      var rest := Insert(x, s[1..]);
      assert s == [s[0]] + s[1..];
      InsertKeepsLowerBound(x, s[1..], s[0]);
      [s[0]] + rest
  }

  /** A level at or below `x` and every element of `s` stays at or below every
      element once `x` is inserted. */
  lemma InsertKeepsLowerBound(x: Level, s: seq<Level>, b: Level)
    requires IsSorted(s) && LessEq(b, x)
    requires forall j :: 0 <= j < |s| ==> LessEq(b, s[j])
    ensures forall y :: y in Insert(x, s) ==> LessEq(b, y)
    decreases |s|, 1
  {
    var r := Insert(x, s);
    forall y | y in r ensures LessEq(b, y) {
      assert y in multiset(r);
      if y != x {
        assert y in multiset(s);
      }
    }
  }

  /** `sorted(levels)`: an ascending permutation of the input. */
  function Sort(s: seq<Level>): (r: seq<Level>)
    ensures IsSorted(r)
    ensures multiset(r) == multiset(s)
  {
    if s == [] then []
    else
      assert s == [s[0]] + s[1..];
      Insert(s[0], Sort(s[1..]))
  }

  /** Sorting keeps exactly the elements of its input. */
  lemma SortKeepsElements(s: seq<Level>)
    ensures forall m :: m in Sort(s) <==> m in s
  {
    var r := Sort(s);
    forall m ensures m in r <==> m in s {
      assert m in r <==> m in multiset(r);
      assert m in s <==> m in multiset(s);
    }
  }

  /** The first element of a sorted sequence is at or below all of its elements. */
  lemma SortedHeadIsLeast(s: seq<Level>, x: Level)
    requires IsSorted(s) && x in multiset(s)
    ensures LessEq(s[0], x)
  {
    var i :| 0 <= i < |s| && s[i] == x;
    if i > 0 { assert LessEq(s[0], s[i]); }
  }

  lemma TailMultiset(s: seq<Level>)
    requires s != []
    ensures multiset(s[1..]) == multiset(s) - multiset{s[0]}
  {
    assert s == [s[0]] + s[1..];
  }

  /** Under a total order there is only one sorted arrangement of a multiset,
      so the result of `sorted` does not depend on the input order or on the
      sorting algorithm. */
  lemma {:induction false} SortedUnique(a: seq<Level>, b: seq<Level>)
    requires IsSorted(a) && IsSorted(b)
    requires multiset(a) == multiset(b)
    ensures a == b
    decreases |a|
  {
    if a != [] {
      assert |b| == |multiset(b)| == |multiset(a)| == |a|;
      SortedHeadIsLeast(a, b[0]);
      SortedHeadIsLeast(b, a[0]);
      LessEqAntisymmetric(a[0], b[0]);
      TailMultiset(a);
      TailMultiset(b);
      SortedUnique(a[1..], b[1..]);
      assert a == [a[0]] + a[1..] && b == [b[0]] + b[1..];
    }
  }

  /** Sorting a sequence that is already sorted gives it back. */
  lemma SortSorted(s: seq<Level>)
    requires IsSorted(s)
    ensures Sort(s) == s
  {
    SortedUnique(Sort(s), s);
  }

  /** `sorted` sees only the multiset of its input. */
  lemma SortPermutationInvariant(s: seq<Level>, t: seq<Level>)
    requires multiset(s) == multiset(t)
    ensures Sort(s) == Sort(t)
  {
    SortedUnique(Sort(s), Sort(t));
  }

  /** A sequence whose severity numbers strictly increase is sorted. */
  lemma {:induction false} IncreasingIsSorted(s: seq<Level>)
    requires forall i :: 0 <= i < |s| - 1 ==> s[i].no < s[i + 1].no
    ensures IsSorted(s)
    decreases |s|
  {
    if |s| > 1 {
      IncreasingIsSorted(s[1..]);
      forall j | 0 < j < |s| ensures s[0].no < s[j].no {
        if j > 1 { assert LessEq(s[1..][0], s[1..][j - 1]); }
      }
    }
  }

  /** The default levels are already in ascending order. */
  lemma DefaultLevelsSorted()
    ensures Sort(DefaultLevels()) == DefaultLevels()
  {
    IncreasingIsSorted(DefaultLevels());
    SortSorted(DefaultLevels());
  }
}
