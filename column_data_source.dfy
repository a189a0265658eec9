/**
 * Bokeh's `ColumnDataSource.stream(new_data, rollover=n)` on one column:
 * the new entries are appended, then `del column[:-n]` drops the oldest
 * entries beyond the last `n`. (A rollover of 0 deletes nothing, as
 * `del column[:-0]` is an empty deletion.)
 */
module ColumnDataSource {

  function Stream<T>(column: seq<T>, items: seq<T>, rollover: nat): seq<T>
  {
    var all := column + items;
    if rollover > 0 && |all| > rollover then all[|all| - rollover..] else all
  }

  /** After a stream the column holds at most `rollover` entries: the newest ones, in order. */
  lemma {:induction false} StreamKeepsLast<T>(column: seq<T>, items: seq<T>, rollover: nat)
    requires rollover > 0
    ensures var r := Stream(column, items, rollover);
            && |r| == (if |column| + |items| < rollover then |column| + |items| else rollover)
            && r == (column + items)[|column| + |items| - |r|..]
  {
  }

  /** Nothing is evicted while the column and the new entries fit. */
  lemma {:induction false} StreamFits<T>(column: seq<T>, items: seq<T>, rollover: nat)
    requires |column| + |items| <= rollover
    ensures Stream(column, items, rollover) == column + items
  {
  }
}
