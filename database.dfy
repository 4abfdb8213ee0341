/**
 * The withdraw request table (database.py). `init_db` gives the table a
 * unique index on `withdraw_request_id` and a trigger that refreshes
 * `updated_at` on every update; `insert_withdraw` is an upsert keyed on that
 * id. The table is modelled as a map from the id to the row, so the unique
 * index holds by construction, and CURRENT_TIMESTAMP is a logical clock.
 */
module Database {
  import opened Wrappers

  /** Withdraw status codes: 0 Created, 1 Processing, 2 Success, 3 Failed. */
  const Created := 0
  const Processing := 1
  const Success := 2
  const Failed := 3

  /**
   * The dict handed to `insert_withdraw`. `status`, `order_id` and
   * `payment_method` may be absent (None here); the others are required.
   */
  datatype WithdrawData = WithdrawData(
    withdrawRequestId: string,
    beneficiaryName: string,
    accountNumber: string,
    ifscCode: string,
    amount: real,
    status: Option<int>,
    orderId: Option<string>,
    paymentMethod: Option<string>)

  /** The business columns of a row: everything an upsert writes except the timestamps. */
  datatype Fields = Fields(
    beneficiaryName: string,
    accountNumber: string,
    ifscCode: string,
    amount: real,
    status: int,
    orderId: string,
    paymentMethod: string)

  datatype WithdrawRow = WithdrawRow(fields: Fields, createdAt: nat, updatedAt: nat)

  /** The table, keyed by `withdraw_request_id`: at most one row per id. */
  type Table = map<string, WithdrawRow>

  /** The values bound to the INSERT, with `data.get(key, default)` for the optional keys. */
  function FieldsOf(d: WithdrawData): Fields
  {
    Fields(d.beneficiaryName, d.accountNumber, d.ifscCode, d.amount,
           if d.status.Some? then d.status.value else Created,
           if d.orderId.Some? then d.orderId.value else "",
           if d.paymentMethod.Some? then d.paymentMethod.value else "")
  }

  /** The business columns of every row. */
  function Business(t: Table): map<string, Fields>
  {
    map id | id in t :: t[id].fields
  }

  /** `insert_withdraw(d)` executed at time `now`. */
  function Upsert(t: Table, d: WithdrawData, now: nat): Table
  {
    var id := d.withdrawRequestId;
    var created := if id in t then t[id].createdAt else now;
    t[id := WithdrawRow(FieldsOf(d), created, now)]
  }

  /**
   * A new id gets a new row stamped `now` twice; an existing id gets every
   * business column overwritten and `updated_at` set to `now`, keeping
   * `created_at`. No other row changes and no other id appears.
   */
  lemma UpsertMeaning(t: Table, d: WithdrawData, now: nat)
    ensures var t' := Upsert(t, d, now); var id := d.withdrawRequestId;
      && t'.Keys == t.Keys + {id}
      && t'[id].fields == FieldsOf(d)
      && t'[id].updatedAt == now
      && t'[id].createdAt == (if id in t then t[id].createdAt else now)
      && forall other :: other in t && other != id ==> t'[other] == t[other]
  {
  }

  /** The row count grows by one exactly when the id was not yet in the table. */
  lemma UpsertCount(t: Table, d: WithdrawData, now: nat)
    ensures |Upsert(t, d, now)| == if d.withdrawRequestId in t then |t| else |t| + 1
  {
    var t' := Upsert(t, d, now);
    if d.withdrawRequestId !in t {
      assert t'.Keys == t.Keys + {d.withdrawRequestId};
      assert |t'.Keys| == |t.Keys| + 1;
    } else {
      assert t'.Keys == t.Keys;
    }
  }

  /** Missing `status`, `order_id` and `payment_method` are stored as 0, "" and "". */
  lemma MissingKeysDefault(d: WithdrawData)
    requires d.status == None && d.orderId == None && d.paymentMethod == None
    ensures FieldsOf(d) == Fields(d.beneficiaryName, d.accountNumber, d.ifscCode, d.amount, Created, "", "")
  {
  }

  /** On the business columns an upsert is a map update at the row's id. */
  lemma BusinessUpsert(t: Table, d: WithdrawData, now: nat)
    ensures Business(Upsert(t, d, now)) == Business(t)[d.withdrawRequestId := FieldsOf(d)]
  {
  }

  /**
   * Upserting the same data twice leaves the same business columns and the
   * same `created_at` as upserting it once; only `updated_at` moves.
   */
  lemma UpsertIdempotent(t: Table, d: WithdrawData, now1: nat, now2: nat)
    ensures var once := Upsert(t, d, now1);
      var twice := Upsert(once, d, now2);
      && Business(twice) == Business(once)
      && twice.Keys == once.Keys
      && forall id :: id in once ==> twice[id].createdAt == once[id].createdAt
  {
    var once := Upsert(t, d, now1);
    BusinessUpsert(once, d, now2);
    assert Business(once)[d.withdrawRequestId] == FieldsOf(d);
  }

  /** Two upserts of one id: the second one's values win, the first one's `created_at` stays. */
  lemma LastWriteWins(t: Table, d1: WithdrawData, d2: WithdrawData, now1: nat, now2: nat)
    requires d1.withdrawRequestId == d2.withdrawRequestId
    ensures var t' := Upsert(Upsert(t, d1, now1), d2, now2);
      && Business(t') == Business(Upsert(t, d2, now2))
      && t'[d2.withdrawRequestId].createdAt == Upsert(t, d1, now1)[d1.withdrawRequestId].createdAt
  {
    BusinessUpsert(Upsert(t, d1, now1), d2, now2);
    BusinessUpsert(t, d1, now1);
    BusinessUpsert(t, d2, now2);
  }

  /**
   * A conflicting upsert overwrites the status and both correlation columns
   * whatever they held: re-ingesting a row with the ingestion defaults moves
   * a Processing, Success or Failed row back to Created with an empty order
   * id and payment method.
   */
  lemma UpsertResetsLifecycle(t: Table, d: WithdrawData, now: nat)
    requires d.withdrawRequestId in t
    requires t[d.withdrawRequestId].fields.status in {Processing, Success, Failed}
    requires d.status == Some(Created) && d.orderId == Some("") && d.paymentMethod == Some("")
    ensures var row := Upsert(t, d, now)[d.withdrawRequestId];
      row.fields.status == Created && row.fields.orderId == "" && row.fields.paymentMethod == ""
      && row.fields.status != t[d.withdrawRequestId].fields.status
  {
  }

  /** The withdraw request table together with the current logical time. */
  class WithdrawStore {
    var rows: Table
    /** The value CURRENT_TIMESTAMP has for the next statement. */
    var clock: nat

    /** Every row was created no later than it was last updated, and both lie in the past. */
    ghost predicate Valid()
      reads this
    {
      forall id :: id in rows ==> rows[id].createdAt <= rows[id].updatedAt < clock
    }

    /** `init_db` on a fresh database: an empty table. */
    constructor ()
      ensures Valid() && rows == map[] && clock == 0
    {
      rows := map[];
      clock := 0;
    }

    /** `insert_withdraw(data)`. */
    method InsertWithdraw(d: WithdrawData)
      requires Valid()
      modifies this
      ensures Valid()
      ensures rows == Upsert(old(rows), d, old(clock))
      ensures clock == old(clock) + 1
    {
      rows := Upsert(rows, d, clock);
      clock := clock + 1;
    }
  }
}
