/**
 * `process_csv_and_save` (main.py): each row of the downloaded withdraw CSV
 * becomes a record with status Created and empty correlation columns and is
 * upserted into the table, in file order. `float()` of a non-numeric Amount
 * raises, which ends the ingestion at that row: the rows before it are
 * stored, it and the rows after it are not.
 */
module CsvIngest {
  import opened Wrappers
  import opened Database

  /**
   * One row of the CSV, already split into its header-matched cells. The
   * Amount cell is given as what Python's `float()` makes of it: a number,
   * or None where `float()` raises.
   */
  datatype CsvRow = CsvRow(
    withdrawRequestId: string,
    beneficiaryName: string,
    accountNumber: string,
    ifscCode: string,
    amount: Option<real>)

  /** Why ingestion stopped: the Amount of the row at this position is not a number. */
  datatype CsvError = InvalidAmount(row: nat)

  /** The record built from a row whose amount parsed. */
  function CsvRecord(row: CsvRow, amount: real): WithdrawData
  {
    WithdrawData(row.withdrawRequestId, row.beneficiaryName, row.accountNumber, row.ifscCode,
                 amount, Some(Created), Some(""), Some(""))
  }

  /** Position of the first row whose Amount does not parse, or the number of rows. */
  function FirstBadAmount(rows: seq<CsvRow>): (k: nat)
    ensures k <= |rows|
    ensures forall i :: 0 <= i < k ==> rows[i].amount.Some?
    ensures k < |rows| ==> rows[k].amount.None?
  {
    if rows == [] || rows[0].amount.None? then 0 else 1 + FirstBadAmount(rows[1..])
  }

  /** The records of rows whose amounts all parsed, in file order. */
  function Records(rows: seq<CsvRow>): (ds: seq<WithdrawData>)
    requires forall i :: 0 <= i < |rows| ==> rows[i].amount.Some?
    ensures |ds| == |rows|
    ensures forall i :: 0 <= i < |rows| ==> ds[i] == CsvRecord(rows[i], rows[i].amount.value)
  {
    if rows == [] then [] else [CsvRecord(rows[0], rows[0].amount.value)] + Records(rows[1..])
  }

  /** Upserting records one after another, the i-th at time `now + i`. */
  function UpsertAll(t: Table, ds: seq<WithdrawData>, now: nat): Table
  {
    if ds == [] then t
    else Upsert(UpsertAll(t, ds[..|ds| - 1], now), ds[|ds| - 1], now + |ds| - 1)
  }

  /** For each id among `ds`, the business columns of its last record. */
  function LastFields(ds: seq<WithdrawData>): map<string, Fields>
  {
    if ds == [] then map[]
    else LastFields(ds[..|ds| - 1])[ds[|ds| - 1].withdrawRequestId := FieldsOf(ds[|ds| - 1])]
  }

  /** An id has an entry among the last records exactly when some record has that id. */
  lemma {:induction false} LastFieldsKeys(ds: seq<WithdrawData>, id: string)
    ensures id in LastFields(ds) <==> exists i :: 0 <= i < |ds| && ds[i].withdrawRequestId == id
  {
    if ds != [] {
      var init := ds[..|ds| - 1];
      LastFieldsKeys(init, id);
      if id in LastFields(ds) && id != ds[|ds| - 1].withdrawRequestId {
        var i :| 0 <= i < |init| && init[i].withdrawRequestId == id;
        assert ds[i] == init[i];
      }
      if i :| 0 <= i < |ds| - 1 && ds[i].withdrawRequestId == id {
        assert init[i] == ds[i];
      }
    }
  }

  /** The entry of an id among the last records holds the columns of its last record. */
  lemma {:induction false} LastFieldsLast(ds: seq<WithdrawData>, i: nat)
    requires i < |ds|
    requires forall j :: i < j < |ds| ==> ds[j].withdrawRequestId != ds[i].withdrawRequestId
    ensures ds[i].withdrawRequestId in LastFields(ds)
    ensures LastFields(ds)[ds[i].withdrawRequestId] == FieldsOf(ds[i])
  {
    var init := ds[..|ds| - 1];
    if i < |init| {
      assert init[i] == ds[i];
      forall j | i < j < |init|
        ensures init[j].withdrawRequestId != init[i].withdrawRequestId
      {
        assert init[j] == ds[j];
      }
      LastFieldsLast(init, i);
    }
  }

  /**
   * On the business columns, a run of upserts overrides the table with the
   * last record of each id: later records win, ids not mentioned are untouched.
   */
  lemma {:induction false} BusinessUpsertAll(t: Table, ds: seq<WithdrawData>, now: nat)
    ensures Business(UpsertAll(t, ds, now)) == Business(t) + LastFields(ds)
  {
    if ds != [] {
      var init, d := ds[..|ds| - 1], ds[|ds| - 1];
      var m, l := Business(t), LastFields(init);
      calc {
        Business(UpsertAll(t, ds, now));
        Business(Upsert(UpsertAll(t, init, now), d, now + |ds| - 1));
        { BusinessUpsert(UpsertAll(t, init, now), d, now + |ds| - 1); }
        Business(UpsertAll(t, init, now))[d.withdrawRequestId := FieldsOf(d)];
        { BusinessUpsertAll(t, init, now); }
        (m + l)[d.withdrawRequestId := FieldsOf(d)];
        m + l[d.withdrawRequestId := FieldsOf(d)];
      }
    }
  }

  /**
   * Ingesting the same records twice leaves the same business columns as
   * ingesting them once: one row per id, the last record of each id winning.
   */
  lemma IngestTwiceIsIngestOnce(t: Table, ds: seq<WithdrawData>, now1: nat, now2: nat)
    ensures Business(UpsertAll(UpsertAll(t, ds, now1), ds, now2)) == Business(UpsertAll(t, ds, now1))
    ensures UpsertAll(UpsertAll(t, ds, now1), ds, now2).Keys == UpsertAll(t, ds, now1).Keys
  {
    var once := UpsertAll(t, ds, now1);
    BusinessUpsertAll(t, ds, now1);
    BusinessUpsertAll(once, ds, now2);
    var m := Business(t);
    var l := LastFields(ds);
    assert (m + l) + l == m + l;
    assert Business(once).Keys == once.Keys;
    assert Business(UpsertAll(once, ds, now2)).Keys == UpsertAll(once, ds, now2).Keys;
  }

  /** A row ingested from the CSV is stored with the ingestion defaults and its other cells copied. */
  lemma CsvRowStored(t: Table, row: CsvRow, amount: real, now: nat)
    ensures Upsert(t, CsvRecord(row, amount), now)[row.withdrawRequestId].fields
         == Fields(row.beneficiaryName, row.accountNumber, row.ifscCode, amount, Created, "", "")
  {
  }

  lemma RecordsExtend(rows: seq<CsvRow>, i: nat)
    requires i < |rows| && forall j :: 0 <= j <= i ==> rows[j].amount.Some?
    ensures Records(rows[..i + 1]) == Records(rows[..i]) + [CsvRecord(rows[i], rows[i].amount.value)]
  {
    var a := Records(rows[..i + 1]);
    var b := Records(rows[..i]) + [CsvRecord(rows[i], rows[i].amount.value)];
    assert |a| == |b|;
    forall j | 0 <= j < |a| ensures a[j] == b[j] {
      assert rows[..i + 1][j] == rows[j];
      if j < i { assert rows[..i][j] == rows[j]; }
    }
  }

  /** One more record is one more upsert, at the next instant. */
  lemma UpsertAllSnoc(t: Table, init: seq<WithdrawData>, d: WithdrawData, now: nat)
    ensures UpsertAll(t, init + [d], now) == Upsert(UpsertAll(t, init, now), d, now + |init|)
  {
    var ds := init + [d];
    assert ds[..|ds| - 1] == init;
  }

  /** Ingesting one more row is one more upsert, at the next instant. */
  lemma IngestStep(t: Table, rows: seq<CsvRow>, i: nat, now: nat)
    requires i < |rows| && forall j :: 0 <= j <= i ==> rows[j].amount.Some?
    ensures UpsertAll(t, Records(rows[..i + 1]), now)
         == Upsert(UpsertAll(t, Records(rows[..i]), now), CsvRecord(rows[i], rows[i].amount.value), now + i)
  {
    RecordsExtend(rows, i);
    UpsertAllSnoc(t, Records(rows[..i]), CsvRecord(rows[i], rows[i].amount.value), now);
  }

  /** `process_csv_and_save`, on the rows of the file. */
  method ProcessCsvAndSave(store: WithdrawStore, rows: seq<CsvRow>) returns (result: Result<(), CsvError>)
    requires store.Valid()
    modifies store
    ensures store.Valid()
    ensures var k := FirstBadAmount(rows);
      && store.rows == UpsertAll(old(store.rows), Records(rows[..k]), old(store.clock))
      && store.clock == old(store.clock) + k
      && result == if k < |rows| then Err(InvalidAmount(k)) else Ok(())
  {
    ghost var k := FirstBadAmount(rows);
    ghost var t0, now0 := store.rows, store.clock;
    for i := 0 to |rows|
      invariant i <= k
      invariant store.Valid()
      invariant store.rows == UpsertAll(t0, Records(rows[..i]), now0)
      invariant store.clock == now0 + i
    {
      var row := rows[i];
      if row.amount.None? {
        assert i == k;
        return Err(InvalidAmount(i));
      }
      var data := CsvRecord(row, row.amount.value);
      IngestStep(t0, rows, i, now0);
      store.InsertWithdraw(data);
    }
    assert rows[..|rows|] == rows;
    return Ok(());
  }
}
