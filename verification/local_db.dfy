/** The device-local store: five tables keyed by record id. Every row of the
    four business tables remembers the user who owns it and its sync status;
    the profile table holds one row per user, keyed by the user id. The
    operations here are the store primitives the sync engine and the app use:
    put by key, bulk put, status update, and a read of rows by key. */
module LocalDb {
  import opened Common
  import opened Domain

  datatype SyncStatus = Synced | Pending | Deleted

  /** A profile row is never tombstoned. */
  type ProfileStatus = s: SyncStatus | s != Deleted witness Synced

  type Uid = string

  datatype Row<D> = Row(rec: D, uid: Uid, status: SyncStatus)

  type Table<D> = map<Id, Row<D>>

  /** An employee as stored locally: the shared record plus the fields only
      the local store and the remote document carry. */
  datatype LocalEmployee = LocalEmployee(
    emp: Employee,
    overtime: map<string, bool>,
    salary: int,
    dateOfJoining: string,
    salaryDeductionRules: string,
    email: string,
    phone: string,
    aadhaar: string,
    createdAt: string)

  datatype LocalInvoice = LocalInvoice(
    inv: Invoice,
    clientEmail: string,
    clientPhone: string,
    clientAddress: string,
    createdAt: string)

  datatype LocalInventoryItem = LocalInventoryItem(item: InventoryItem, createdAt: string)

  datatype ProfileRow = ProfileRow(profile: Profile, status: ProfileStatus)

  datatype Store = Store(
    employees: Table<LocalEmployee>,
    invoices: Table<LocalInvoice>,
    transactions: Table<Transaction>,
    inventory: Table<LocalInventoryItem>,
    profile: map<Id, ProfileRow>)

  /** `table.put(row)`: the row under id is replaced whoever owned it before. */
  function Put<D>(t: Table<D>, id: Id, row: Row<D>): (r: Table<D>)
    ensures r.Keys == t.Keys + {id}
    ensures r[id] == row
    ensures forall k :: k in t && k != id ==> r[k] == t[k]
  {
    t[id := row]
  }

  /** `table.update(id, {_syncStatus})`: changes only the status, and only of
      an existing row. */
  function SetStatus<D>(t: Table<D>, id: Id, status: SyncStatus): (r: Table<D>)
    ensures r.Keys == t.Keys
    ensures id in t ==> r[id] == t[id].(status := status)
    ensures forall k :: k in t && k != id ==> r[k] == t[k]
  {
    if id in t then t[id := t[id].(status := status)] else t
  }

  /** The ids a batch writes. */
  function BatchIds<D>(rows: seq<(Id, Row<D>)>): (r: set<Id>)
    ensures forall i :: 0 <= i < |rows| ==> rows[i].0 in r
    ensures forall k :: k in r ==> exists i :: 0 <= i < |rows| && rows[i].0 == k
  {
    if rows == [] then {} else BatchIds(rows[..|rows| - 1]) + {rows[|rows| - 1].0}
  }

  /** `table.bulkPut(rows)`: each row is put in turn. */
  function BulkPut<D>(t: Table<D>, rows: seq<(Id, Row<D>)>): (r: Table<D>)
    ensures r.Keys == t.Keys + BatchIds(rows)
  {
    if rows == [] then t
    else
      var n := |rows| - 1;
      BulkPut(t, rows[..n])[rows[n].0 := rows[n].1]
  }

  /** Rows the batch does not name are untouched. */
  lemma {:induction false} BulkPutKeepsOthers<D>(t: Table<D>, rows: seq<(Id, Row<D>)>)
    ensures forall k :: k in t && k !in BatchIds(rows) ==> BulkPut(t, rows)[k] == t[k]
  {
    if rows != [] {
      var n := |rows| - 1;
      BulkPutKeepsOthers(t, rows[..n]);
      assert BatchIds(rows) == BatchIds(rows[..n]) + {rows[n].0};
    }
  }

  /** The last entry of the batch with a given id is the row stored under it. */
  lemma {:induction false} BulkPutLastWins<D>(t: Table<D>, rows: seq<(Id, Row<D>)>, i: nat)
    requires i < |rows|
    requires forall j :: i < j < |rows| ==> rows[j].0 != rows[i].0
    ensures BulkPut(t, rows)[rows[i].0] == rows[i].1
  {
    var n := |rows| - 1;
    var front := rows[..n];
    var m := BulkPut(t, front);
    var (k, row) := rows[i];
    assert BulkPut(t, rows) == m[rows[n].0 := rows[n].1];
    if i < n {
      assert front[i] == rows[i];
      forall j | i < j < |front|
        ensures front[j].0 != front[i].0
      {
        assert front[j] == rows[j];
      }
      BulkPutLastWins(t, front, i);
      assert rows[n].0 != k;
      assert m[k] == row;
    }
  }

  /** The rows under the given keys, in the given order. */
  function RowsAt<D>(t: Table<D>, ks: seq<Id>): (r: seq<Row<D>>)
    requires forall i :: 0 <= i < |ks| ==> ks[i] in t
    ensures |r| == |ks|
    ensures forall i :: 0 <= i < |ks| ==> r[i] == t[ks[i]]
  {
    seq(|ks|, i requires 0 <= i < |ks| => t[ks[i]])
  }

  predicate PendingOf<D>(row: Row<D>, uid: Uid) {
    row.uid == uid && row.status == SyncStatus.Pending
  }
}
