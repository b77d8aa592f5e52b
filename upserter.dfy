/** `load_data_to_postgres`: one `INSERT ... ON CONFLICT (symbol, trading_date)
    DO UPDATE` per row, in order, against the `time_series_data` table. */
module Upserter {
  import opened Wrappers
  import opened Json
  import opened Normalizer

  /** The table's primary key, (symbol, trading_date). */
  type Key = (Json, string)

  function KeyOf(row: Row): Key {
    (row.symbol, row.tradingDate)
  }

  /** The effect of one upsert statement on the table's contents: insert a
      new key, or overwrite all five value columns of an existing one. */
  function Upsert(table: map<Key, Prices>, row: Row): map<Key, Prices> {
    table[KeyOf(row) := row.prices]
  }

  /** The statements for `rows` run one after another, in the order given. */
  function UpsertAll(table: map<Key, Prices>, rows: seq<Row>): map<Key, Prices> {
    if rows == [] then table else Upsert(UpsertAll(table, rows[..|rows| - 1]), rows[|rows| - 1])
  }

  /** The values of the last row with key `k`, if any row has it. */
  function LastWrite(rows: seq<Row>, k: Key): (r: Option<Prices>)
    ensures r.None? <==> forall i :: 0 <= i < |rows| ==> KeyOf(rows[i]) != k
  {
    if rows == [] then None
    else if KeyOf(rows[|rows| - 1]) == k then Some(rows[|rows| - 1].prices)
    else
      var init := rows[..|rows| - 1];
      assert forall i :: 0 <= i < |init| ==> init[i] == rows[i];
      LastWrite(init, k)
  }

  /** LastWrite finds the row with key `k` that no later row overrides. */
  lemma {:induction false} LastWriteIsLast(rows: seq<Row>, k: Key, i: nat)
    requires i < |rows| && KeyOf(rows[i]) == k
    requires forall j :: i < j < |rows| ==> KeyOf(rows[j]) != k
    ensures LastWrite(rows, k) == Some(rows[i].prices)
  {
    if i < |rows| - 1 {
      var init := rows[..|rows| - 1];
      assert init[i] == rows[i];
      assert forall j :: i < j < |init| ==> init[j] == rows[j];
      LastWriteIsLast(init, k, i);
    }
  }

  /** Last write per key wins, and keys no row mentions keep their prior
      value (or stay absent). */
  lemma {:induction false} LastWriteWins(table: map<Key, Prices>, rows: seq<Row>, k: Key)
    ensures LastWrite(rows, k).Some? ==> k in UpsertAll(table, rows) && UpsertAll(table, rows)[k] == LastWrite(rows, k).value
    ensures LastWrite(rows, k).None? ==> (k in UpsertAll(table, rows) <==> k in table)
    ensures LastWrite(rows, k).None? && k in table ==> UpsertAll(table, rows)[k] == table[k]
  {
    if rows != [] {
      LastWriteWins(table, rows[..|rows| - 1], k);
    }
  }

  /** Running the statements for the same rows a second time changes nothing. */
  lemma Idempotent(table: map<Key, Prices>, rows: seq<Row>)
    ensures UpsertAll(UpsertAll(table, rows), rows) == UpsertAll(table, rows)
  {
    var once := UpsertAll(table, rows);
    var twice := UpsertAll(once, rows);
    forall k ensures (k in twice <==> k in once) && (k in once ==> twice[k] == once[k]) {
      LastWriteWins(table, rows, k);
      LastWriteWins(once, rows, k);
    }
  }

  /** The table after the load holds exactly the keys it held before and
      the keys of the rows. */
  lemma LoadedKeys(table: map<Key, Prices>, rows: seq<Row>)
    ensures UpsertAll(table, rows).Keys == table.Keys + (set r | r in rows :: KeyOf(r))
  {
    var after := UpsertAll(table, rows);
    forall k ensures k in after <==> k in table || k in (set r | r in rows :: KeyOf(r)) {
      LastWriteWins(table, rows, k);
      if k in (set r | r in rows :: KeyOf(r)) {
        var r :| r in rows && KeyOf(r) == k;
        var i :| 0 <= i < |rows| && rows[i] == r;
      }
    }
  }

  /** The `time_series_data` table, as the statements see it. */
  class TimeSeriesDataTable {
    var contents: map<Key, Prices>

    /** A table that already holds `initial` (it is created if not present
        and never emptied by the job). */
    constructor (initial: map<Key, Prices>)
      ensures contents == initial
    {
      contents := initial;
    }

    /** One execution of the upsert statement. */
    method Upsert(row: Row)
      modifies this
      ensures contents == old(contents)[KeyOf(row) := row.prices]
    {
      contents := contents[KeyOf(row) := row.prices];
    }

    /** The `load_data_to_postgres` step: one statement per row, in the order given. */
    method LoadDataToPostgres(timeSeriesRows: seq<Row>)
      modifies this
      ensures contents == UpsertAll(old(contents), timeSeriesRows)
      ensures forall k :: LastWrite(timeSeriesRows, k).Some? ==>
                k in contents && contents[k] == LastWrite(timeSeriesRows, k).value
      ensures forall k :: LastWrite(timeSeriesRows, k).None? ==>
                (k in contents <==> k in old(contents)) && (k in contents ==> contents[k] == old(contents)[k])
    {
      var i := 0;
      while i < |timeSeriesRows|
        invariant 0 <= i <= |timeSeriesRows|
        invariant contents == UpsertAll(old(contents), timeSeriesRows[..i])
      {
        assert timeSeriesRows[..i + 1][..i] == timeSeriesRows[..i];
        Upsert(timeSeriesRows[i]);
        i := i + 1;
      }
      assert timeSeriesRows[..i] == timeSeriesRows;
      ghost var before := old(contents);
      forall k {
        LastWriteWins(before, timeSeriesRows, k);
      }
    }
  }
}
