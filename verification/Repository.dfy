/** The shared order table: idempotent recording, and the day's buy total read back from it. */
module Repository {
  import opened Prelude
  import opened Orders
  import opened Pipeline

  predicate HasId(rows: seq<OrderResult>, id: OrderId) {
    exists i :: 0 <= i < |rows| && rows[i].clientOrderId == id
  }

  /** Echoes of repeats and ids already on record are not inserted again. */
  function AddOrder(rows: seq<OrderResult>, res: OrderResult): seq<OrderResult> {
    if res.status.Duplicate? || HasId(rows, res.clientOrderId) then rows else rows + [res]
  }

  function AddOrders(rows: seq<OrderResult>, results: seq<OrderResult>): seq<OrderResult> {
    if results == [] then rows
    else AddOrder(AddOrders(rows, results[..|results| - 1]), results[|results| - 1])
  }

  /** A row's share of one date's buy total; the date is that of the row's creation. */
  function SpendsOn(row: OrderResult, date: int): real {
    if DayOf(row.createdAt) == date then Spends(row) else 0.0
  }

  function SpentOn(rows: seq<OrderResult>, date: int): real {
    if rows == [] then 0.0
    else SpentOn(rows[..|rows| - 1], date) + SpendsOn(rows[|rows| - 1], date)
  }

  class OrderTable {
    var rows: seq<OrderResult>

    constructor ()
      ensures rows == []
    {
      rows := [];
    }

    method BuyNotionalToday(date: int) returns (total: real)
      ensures total == SpentOn(rows, date)
    {
      hide Spends;
      total := 0.0;
      for i := 0 to |rows|
        invariant total == SpentOn(rows[..i], date)
      {
        assert rows[..i + 1][..i] == rows[..i];
        if DayOf(rows[i].createdAt) == date {
          total := total + Spends(rows[i]);
        }
      }
      assert rows[..|rows|] == rows;
    }

    method RecordTick(results: seq<OrderResult>)
      modifies this
      ensures rows == AddOrders(old(rows), results)
    {
      for i := 0 to |results|
        invariant rows == AddOrders(old(rows), results[..i])
      {
        assert results[..i + 1][..i] == results[..i];
        Insert(results[i]);
      }
      assert results[..|results|] == results;
    }

    method Insert(res: OrderResult)
      modifies this
      ensures rows == AddOrder(old(rows), res)
    {
      if res.status.Duplicate? {
        return;
      }
      var known := false;
      for i := 0 to |rows|
        invariant rows == old(rows) && i <= |rows|
        invariant known <==> HasId(rows[..i], res.clientOrderId)
      {
        assert rows[..i + 1] == rows[..i] + [rows[i]];
        HasIdAppend(rows[..i], rows[i], res.clientOrderId);
        if rows[i].clientOrderId == res.clientOrderId {
          known := true;
        }
      }
      assert rows[..|rows|] == rows;
      if !known {
        rows := rows + [res];
      }
    }
  }

  lemma HasIdAppend(rows: seq<OrderResult>, row: OrderResult, id: OrderId)
    ensures HasId(rows + [row], id) <==> HasId(rows, id) || row.clientOrderId == id
  {
    var more := rows + [row];
    if i :| 0 <= i < |rows| && rows[i].clientOrderId == id {
      assert more[i].clientOrderId == id;
    }
    assert more[|rows|] == row;
  }

  lemma SpentOnAppend(rows: seq<OrderResult>, row: OrderResult, date: int)
    ensures SpentOn(rows + [row], date) == SpentOn(rows, date) + SpendsOn(row, date)
  {
    assert (rows + [row])[..|rows|] == rows;
  }

  ghost predicate SharesNonnegative(rows: seq<OrderResult>) {
    forall i :: 0 <= i < |rows| ==> Spends(rows[i]) >= 0.0
  }

  lemma {:induction false} TotalNonnegative(rows: seq<OrderResult>, date: int)
    requires SharesNonnegative(rows)
    ensures SpentOn(rows, date) >= 0.0
  {
    hide Spends;
    if rows != [] {
      TotalNonnegative(rows[..|rows| - 1], date);
    }
  }

  lemma {:induction false} OneDateAtMostAll(rows: seq<OrderResult>, date: int)
    requires SharesNonnegative(rows)
    ensures SpentOn(rows, date) <= Spent(rows)
  {
    hide Spends;
    if rows != [] {
      OneDateAtMostAll(rows[..|rows| - 1], date);
    }
  }

  lemma {:induction false} RecordingKeepsShares(rows: seq<OrderResult>, results: seq<OrderResult>)
    requires SharesNonnegative(rows) && SharesNonnegative(results)
    ensures SharesNonnegative(AddOrders(rows, results))
  {
    hide Spends, HasId;
    if results != [] {
      RecordingKeepsShares(rows, results[..|results| - 1]);
    }
  }

  /** Recording never adds more to a date than the orders carry, however many of them are repeats. */
  lemma {:induction false} RecordingAddsAtMost(rows: seq<OrderResult>, results: seq<OrderResult>, date: int)
    requires SharesNonnegative(results)
    ensures SpentOn(AddOrders(rows, results), date) <= SpentOn(rows, date) + SpentOn(results, date)
  {
    hide Spends;
    if results != [] {
      var n := |results| - 1;
      RecordingAddsAtMost(rows, results[..n], date);
      SpentOnAppend(AddOrders(rows, results[..n]), results[n], date);
    }
  }

  /** New ids: none is on record, and none occurs twice among the orders themselves. */
  ghost predicate AllNew(rows: seq<OrderResult>, results: seq<OrderResult>) {
    (forall i :: 0 <= i < |results| ==> !HasId(rows, results[i].clientOrderId))
    && (forall i, j :: 0 <= i < j < |results| ==> results[i].clientOrderId != results[j].clientOrderId)
  }

  lemma {:induction false} IdsAfterRecording(rows: seq<OrderResult>, results: seq<OrderResult>, id: OrderId)
    requires HasId(AddOrders(rows, results), id)
    ensures HasId(rows, id) || HasId(results, id)
  {
    if results != [] {
      var n := |results| - 1;
      var before := AddOrders(rows, results[..n]);
      assert results == results[..n] + [results[n]];
      HasIdAppend(before, results[n], id);
      HasIdAppend(results[..n], results[n], id);
      if HasId(before, id) {
        IdsAfterRecording(rows, results[..n], id);
      }
    }
  }

  /** With new ids nothing is dropped: every date's total grows by exactly what the orders carry. */
  lemma {:induction false} RecordingAddsExactly(rows: seq<OrderResult>, results: seq<OrderResult>, date: int)
    requires AllNew(rows, results)
    ensures SpentOn(AddOrders(rows, results), date) == SpentOn(rows, date) + SpentOn(results, date)
  {
    hide HasId;
    if results != [] {
      var n := |results| - 1;
      assert forall i :: 0 <= i < n ==> results[..n][i] == results[i];
      RecordingAddsExactly(rows, results[..n], date);
      var before, last := AddOrders(rows, results[..n]), results[n];
      if HasId(before, last.clientOrderId) {
        IdsAfterRecording(rows, results[..n], last.clientOrderId);
        NotAmongEarlier(results, n);
      }
      SpentOnAppend(before, last, date);
      DuplicateCarriesNothing(last, date);
    }
  }

  /** With new ids and no echoes, exactly the results are appended, rejected ones included. */
  lemma {:induction false} RecordingAppends(rows: seq<OrderResult>, results: seq<OrderResult>)
    requires AllNew(rows, results) && forall i :: 0 <= i < |results| ==> results[i].status != Duplicate
    ensures AddOrders(rows, results) == rows + results
  {
    hide HasId;
    if results != [] {
      var n := |results| - 1;
      assert forall i :: 0 <= i < n ==> results[..n][i] == results[i];
      RecordingAppends(rows, results[..n]);
      if HasId(AddOrders(rows, results[..n]), results[n].clientOrderId) {
        IdsAfterRecording(rows, results[..n], results[n].clientOrderId);
        NotAmongEarlier(results, n);
      }
      assert rows + results == rows + results[..n] + [results[n]];
    }
  }

  /** The ids on record afterwards: those before, and those of the results that are not echoes. */
  lemma {:induction false} RecordedIds(rows: seq<OrderResult>, results: seq<OrderResult>, id: OrderId)
    ensures HasId(AddOrders(rows, results), id)
      <==> HasId(rows, id) || exists i :: 0 <= i < |results| && results[i].status != Duplicate && results[i].clientOrderId == id
    ensures rows <= AddOrders(rows, results)
  {
    hide HasId;
    if results != [] {
      var n := |results| - 1;
      RecordedIds(rows, results[..n], id);
      HasIdAppend(AddOrders(rows, results[..n]), results[n], id);
      if i :| 0 <= i < n && results[..n][i].status != Duplicate && results[..n][i].clientOrderId == id {
        assert results[i].clientOrderId == id;
      }
      if i :| 0 <= i < |results| && results[i].status != Duplicate && results[i].clientOrderId == id {
        if i < n {
          assert results[..n][i].clientOrderId == id;
        }
      }
    }
  }

  lemma NotAmongEarlier(results: seq<OrderResult>, n: nat)
    requires n < |results| && forall i, j :: 0 <= i < j < |results| ==> results[i].clientOrderId != results[j].clientOrderId
    ensures !HasId(results[..n], results[n].clientOrderId)
  {
  }

  lemma DuplicateCarriesNothing(row: OrderResult, date: int)
    ensures row.status.Duplicate? ==> SpendsOn(row, date) == 0.0
  {
  }
}
