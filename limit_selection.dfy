/**
 * The cumulative-limit selection of `/pendingwithdraws <limit>` (main.py).
 * The pending rows are walked in the order the store returns them; a row
 * with an empty id is passed over, any other row is taken when it still fits
 * under the limit together with what was taken before, and counted as
 * skipped otherwise. A row that does not fit does not end the walk.
 */
module LimitSelection {

  /**
   * One pending row: the withdraw request id and its amount. An id stored as
   * NULL is falsy in the source just like the empty string and is written "".
   */
  datatype PendingRow = PendingRow(id: string, amount: real)

  /** What the walk produced: the rows taken, how many were skipped, and the running total. */
  datatype Selection = Selection(picked: seq<PendingRow>, skipped: nat, total: real)

  function Ids(rows: seq<PendingRow>): (ids: seq<string>)
    ensures |ids| == |rows|
    ensures forall k :: 0 <= k < |rows| ==> ids[k] == rows[k].id
  {
    if rows == [] then [] else [rows[0].id] + Ids(rows[1..])
  }

  function Sum(rows: seq<PendingRow>): real
  {
    if rows == [] then 0.0 else rows[0].amount + Sum(rows[1..])
  }

  /** Number of rows whose id is not empty. */
  function CountWithId(rows: seq<PendingRow>): nat
  {
    if rows == [] then 0 else (if rows[0].id != "" then 1 else 0) + CountWithId(rows[1..])
  }

  /** `sub` is `rows` with some rows left out, in the same order. */
  predicate IsSubsequence(sub: seq<PendingRow>, rows: seq<PendingRow>)
  {
    || sub == []
    || (rows != [] && ((sub[0] == rows[0] && IsSubsequence(sub[1..], rows[1..])) || IsSubsequence(sub, rows[1..])))
  }

  /** The walk over `rows`, starting from a running total of `total`. */
  function Walk(rows: seq<PendingRow>, limit: real, total: real): Selection
  {
    if rows == [] then Selection([], 0, total)
    else
      var row := rows[0];
      if row.id == "" then Walk(rows[1..], limit, total)
      else if total + row.amount <= limit then
        var rest := Walk(rows[1..], limit, total + row.amount);
        Selection([row] + rest.picked, rest.skipped, rest.total)
      else
        var rest := Walk(rows[1..], limit, total);
        Selection(rest.picked, rest.skipped + 1, rest.total)
  }

  /** The running total ends as the start plus the amounts taken, and never passes the limit. */
  lemma {:induction false} WalkTotal(rows: seq<PendingRow>, limit: real, total: real)
    requires total <= limit
    ensures Walk(rows, limit, total).total == total + Sum(Walk(rows, limit, total).picked)
    ensures Walk(rows, limit, total).total <= limit
  {
    if rows != [] {
      var row := rows[0];
      if row.id == "" {
        WalkTotal(rows[1..], limit, total);
      } else if total + row.amount <= limit {
        WalkTotal(rows[1..], limit, total + row.amount);
      } else {
        WalkTotal(rows[1..], limit, total);
      }
    }
  }

  /** Rows without an id are neither taken nor skipped; every other row is exactly one of the two. */
  lemma {:induction false} WalkPartition(rows: seq<PendingRow>, limit: real, total: real)
    ensures |Walk(rows, limit, total).picked| + Walk(rows, limit, total).skipped == CountWithId(rows)
    ensures forall k :: 0 <= k < |Walk(rows, limit, total).picked| ==> Walk(rows, limit, total).picked[k].id != ""
  {
    if rows != [] {
      var row := rows[0];
      if row.id == "" {
        WalkPartition(rows[1..], limit, total);
      } else if total + row.amount <= limit {
        WalkPartition(rows[1..], limit, total + row.amount);
      } else {
        WalkPartition(rows[1..], limit, total);
      }
    }
  }

  /** The rows taken keep their order in the input. */
  lemma {:induction false} WalkKeepsOrder(rows: seq<PendingRow>, limit: real, total: real)
    ensures IsSubsequence(Walk(rows, limit, total).picked, rows)
  {
    if rows != [] {
      var row := rows[0];
      if row.id == "" {
        WalkKeepsOrder(rows[1..], limit, total);
      } else if total + row.amount <= limit {
        WalkKeepsOrder(rows[1..], limit, total + row.amount);
      } else {
        WalkKeepsOrder(rows[1..], limit, total);
      }
    }
  }

  /**
   * A row that does not fit does not end the walk: whatever follows it is
   * walked from the same running total, so a later, smaller row is still taken.
   */
  lemma OverflowContinues(row: PendingRow, rest: seq<PendingRow>, limit: real, total: real)
    requires row.id != "" && total + row.amount > limit
    ensures Walk([row] + rest, limit, total).picked == Walk(rest, limit, total).picked
    ensures Walk([row] + rest, limit, total).skipped == Walk(rest, limit, total).skipped + 1
  {
    assert ([row] + rest)[1..] == rest;
  }

  /**
   * A row with an id that fits is taken, and the walk continues from the
   * running total raised by its amount.
   */
  lemma FitTakes(row: PendingRow, rest: seq<PendingRow>, limit: real, total: real)
    requires row.id != "" && total + row.amount <= limit
    ensures Walk([row] + rest, limit, total).picked == [row] + Walk(rest, limit, total + row.amount).picked
    ensures Walk([row] + rest, limit, total).skipped == Walk(rest, limit, total + row.amount).skipped
  {
    assert ([row] + rest)[1..] == rest;
  }

  /** `[500, 100, 9999, 50]` under 600: 500 and 100 are taken, 9999 and 50 skipped. */
  lemma ExampleFullAtLimit()
    ensures var s := Walk([PendingRow("a", 500.0), PendingRow("b", 100.0), PendingRow("c", 9999.0),
                           PendingRow("d", 50.0)], 600.0, 0.0);
      Ids(s.picked) == ["a", "b"] && s.total == 600.0 && s.skipped == 2
  {
  }

  /** `[500, 9999, "", 100]` under 600: the overflowing row is skipped and 100 still fits. */
  lemma ExampleSmallerRowAfterOverflow()
    ensures var s := Walk([PendingRow("a", 500.0), PendingRow("b", 9999.0), PendingRow("", 1.0),
                           PendingRow("c", 100.0)], 600.0, 0.0);
      Ids(s.picked) == ["a", "c"] && s.total == 600.0 && s.skipped == 1
  {
  }

  /**
   * The selection loop of `pending_withdraws`: returns the selected ids, the
   * number skipped and the running total. The limit was checked non-negative
   * before the walk.
   */
  method SelectWithinLimit(rows: seq<PendingRow>, limit: real)
    returns (selected: seq<string>, skipped: nat, runningTotal: real)
    requires limit >= 0.0
    ensures var s := Walk(rows, limit, 0.0);
      selected == Ids(s.picked) && skipped == s.skipped && runningTotal == s.total
    ensures exists picked ::
      && IsSubsequence(picked, rows)
      && selected == Ids(picked)
      && runningTotal == Sum(picked)
      && |picked| + skipped == CountWithId(rows)
    ensures runningTotal <= limit
  {
    selected, skipped, runningTotal := [], 0, 0.0;
    ghost var picked: seq<PendingRow> := [];
    for i := 0 to |rows|
      invariant var rest := Walk(rows[i..], limit, runningTotal);
        Walk(rows, limit, 0.0) == Selection(picked + rest.picked, skipped + rest.skipped, rest.total)
      invariant selected == Ids(picked)
    {
      assert rows[i..][1..] == rows[i + 1..];
      var row := rows[i];
      if row.id == "" {
        continue;
      }
      if runningTotal + row.amount <= limit {
        runningTotal := runningTotal + row.amount;
        selected := selected + [row.id];
        picked := picked + [row];
      } else {
        skipped := skipped + 1;
      }
    }
    WalkTotal(rows, limit, 0.0);
    WalkPartition(rows, limit, 0.0);
    WalkKeepsOrder(rows, limit, 0.0);
  }
}
