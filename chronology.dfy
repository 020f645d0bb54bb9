/** Ordering logs by date, as the storage adapter's `getLogs` (newest first) and the
    dashboard's chart data (oldest first) do with `Array.prototype.sort`. A date string is
    compared through `instant`, the time `new Date(date).getTime()` gives for it. */
module Chronology {

  import opened Types

  datatype Order = OldestFirst | NewestFirst

  /** The sort key: the instant of the log's date, negated when the newest come first. */
  function Key(l: DailyLog, order: Order, instant: string -> int): int {
    match order
    case OldestFirst => instant(l.date)
    case NewestFirst => -instant(l.date)
  }

  /** `a` may stand before `b`. */
  predicate InOrder(a: DailyLog, b: DailyLog, order: Order, instant: string -> int) {
    Key(a, order, instant) <= Key(b, order, instant)
  }

  predicate Sorted(s: seq<DailyLog>, order: Order, instant: string -> int) {
    forall i, j :: 0 <= i < j < |s| ==> InOrder(s[i], s[j], order, instant)
  }

  /** Inserts `x` into a sorted list, after every log that may stand before it. */
  function Insert(x: DailyLog, s: seq<DailyLog>, order: Order, instant: string -> int): (r: seq<DailyLog>)
    requires Sorted(s, order, instant)
    ensures Sorted(r, order, instant)
    ensures multiset(r) == multiset(s) + multiset{x}
  {
    if s == [] then [x]
    else if !InOrder(s[0], x, order, instant) then [x] + s
    else
      var rest := Insert(x, s[1..], order, instant);
      assert s == [s[0]] + s[1..];
      assert forall k :: 0 <= k < |rest| ==> InOrder(s[0], rest[k], order, instant) by {
        forall k | 0 <= k < |rest| ensures InOrder(s[0], rest[k], order, instant) {
          assert rest[k] in multiset(rest);
          if rest[k] != x {
            assert rest[k] in multiset(s[1..]);
            var j :| 0 <= j < |s[1..]| && s[1..][j] == rest[k];
            assert s[1 + j] == rest[k];
          }
        }
      }
      [s[0]] + rest
  }

  /** A sorted permutation of `s` (insertion sort). */
  function SortBy(s: seq<DailyLog>, order: Order, instant: string -> int): (r: seq<DailyLog>)
    ensures Sorted(r, order, instant)
    ensures multiset(r) == multiset(s)
  {
    if s == [] then []
    else
      assert s == s[..|s| - 1] + [s[|s| - 1]];
      Insert(s[|s| - 1], SortBy(s[..|s| - 1], order, instant), order, instant)
  }
}
