/** The rest of the offline-first sync engine: reading the owner's rows from
    the local store, refreshing the store from a remote snapshot, and
    clearing the owner's rows at logout. The push pass is in SyncPush.

    The remote side is a parameter: a refresh receives the snapshot it read
    and the time it ran. */
module SyncEngine {
  import opened Common
  import opened LexOrder
  import opened Sorting
  import opened Domain
  import opened LocalDb
  import opened Remote

  // ===========================================================================
  // Reading the owner's data
  // ===========================================================================

  /** A row the app shows: the owner's, and not a tombstone. */
  predicate Visible<D>(row: Row<D>, uid: Uid) {
    row.uid == uid && row.status != Deleted
  }

  /** The ids of the owner's visible rows in the order the owner index yields
      them: by id. */
  function VisibleIds<D>(t: Table<D>, uid: Uid): seq<Id> {
    SortedKeys(set k | k in t && Visible(t[k], uid))
  }

  lemma VisibleIdsSpec<D>(t: Table<D>, uid: Uid)
    ensures forall k :: k in VisibleIds(t, uid) <==> k in t && Visible(t[k], uid)
    ensures forall i :: 0 <= i < |VisibleIds(t, uid)| ==> VisibleIds(t, uid)[i] in t
    ensures |VisibleIds(t, uid)| == |set k | k in t && Visible(t[k], uid)|
  {
    SortedKeysSpec(set k | k in t && Visible(t[k], uid));
  }

  /** `sortBy(field)` compares rows by a string field of their record. */
  function ByKey<D>(key: D -> string): (Row<D>, Row<D>) -> bool {
    (a: Row<D>, b: Row<D>) => LexLe(key(a.rec), key(b.rec))
  }

  lemma ByKeyPreorder<D(!new)>(key: D -> string)
    ensures TotalPreorder(ByKey(key))
  {
    forall a: Row<D>, b: Row<D>
      ensures ByKey(key)(a, b) || ByKey(key)(b, a)
    {
      LexLeTotal(key(a.rec), key(b.rec));
    }
    forall a: Row<D>, b: Row<D>, c: Row<D> | ByKey(key)(a, b) && ByKey(key)(b, c)
      ensures ByKey(key)(a, c)
    {
      LexLeTransitive(key(a.rec), key(b.rec), key(c.rec));
    }
  }

  /** One table as the app reads it: the owner's visible rows sorted by a
      field, ascending, or descending when the query reverses the result. */
  function OwnerView<D(!new)>(t: Table<D>, uid: Uid, key: D -> string, descending: bool): seq<Row<D>> {
    VisibleIdsSpec(t, uid);
    var up := SortBy(RowsAt(t, VisibleIds(t, uid)), ByKey(key));
    if descending then Reverse(up) else up
  }

  /** The owner's visible rows, read by their sorted ids, are exactly the
      visible rows of the table. */
  lemma VisibleRowsSpec<D>(t: Table<D>, uid: Uid)
    ensures forall i :: 0 <= i < |VisibleIds(t, uid)| ==> VisibleIds(t, uid)[i] in t
    ensures var rows := RowsAt(t, VisibleIds(t, uid));
            forall x :: x in rows <==> exists k :: k in t && Visible(t[k], uid) && t[k] == x
  {
    VisibleIdsSpec(t, uid);
    var ids := VisibleIds(t, uid);
    var rows := RowsAt(t, ids);
    forall x
      ensures x in rows <==> exists k :: k in t && Visible(t[k], uid) && t[k] == x
    {
      if x in rows {
        var i :| 0 <= i < |rows| && rows[i] == x;
        assert ids[i] in ids;
      }
      if exists k :: k in t && Visible(t[k], uid) && t[k] == x {
        var k :| k in t && Visible(t[k], uid) && t[k] == x;
        assert k in ids;
        var i :| 0 <= i < |ids| && ids[i] == k;
        assert rows[i] == x;
      }
    }
  }

  /** Two sequences with the same multiset hold the same elements. */
  lemma SameElements<T>(a: seq<T>, b: seq<T>)
    requires multiset(a) == multiset(b)
    ensures forall x :: x in a <==> x in b
  {
    forall x
      ensures x in a <==> x in b
    {
      assert x in a <==> x in multiset(a);
      assert x in b <==> x in multiset(b);
    }
  }

  /** The view holds exactly the owner's visible rows, one entry per row,
      in the field's order. */
  lemma OwnerViewSpec<D(!new)>(t: Table<D>, uid: Uid, key: D -> string, descending: bool)
    ensures var v := OwnerView(t, uid, key, descending);
            && |v| == |set k | k in t && Visible(t[k], uid)|
            && (forall x :: x in v <==> exists k :: k in t && Visible(t[k], uid) && t[k] == x)
            && (!descending ==> forall i, j :: 0 <= i < j < |v| ==> LexLe(key(v[i].rec), key(v[j].rec)))
            && (descending ==> forall i, j :: 0 <= i < j < |v| ==> LexLe(key(v[j].rec), key(v[i].rec)))
  {
    VisibleIdsSpec(t, uid);
    var rows := RowsAt(t, VisibleIds(t, uid));
    var up := SortBy(rows, ByKey(key));
    var v := OwnerView(t, uid, key, descending);
    assert SortedBy(up, ByKey(key)) by {
      ByKeyPreorder(key);
    }
    assert forall x :: x in v <==> exists k :: k in t && Visible(t[k], uid) && t[k] == x by {
      VisibleRowsSpec(t, uid);
      SameElements(up, rows);
      SameElements(v, up);
    }
    if descending {
      ReverseSorted(up, ByKey(key));
    }
  }

  function EmployeeCreatedAt(l: LocalEmployee): string { l.createdAt }
  function InvoiceCreatedAt(l: LocalInvoice): string { l.createdAt }
  function TransactionDate(t: Transaction): string { t.date }
  function InventoryCreatedAt(l: LocalInventoryItem): string { l.createdAt }

  datatype LocalView = LocalView(
    employees: seq<Row<LocalEmployee>>,
    invoices: seq<Row<LocalInvoice>>,
    transactions: seq<Row<Transaction>>,
    inventory: seq<Row<LocalInventoryItem>>,
    profile: Option<Profile>)

  /** Everything the app shows for the owner: employees and inventory oldest
      first, invoices newest first, transactions latest date first, and the
      owner's profile when the store has one. */
  function LoadFromLocal(s: Store, uid: Uid): (v: LocalView)
    ensures v.profile.Some? <==> uid in s.profile
    ensures v.profile.Some? ==> v.profile.value == s.profile[uid].profile
  {
    LocalView(
      OwnerView(s.employees, uid, EmployeeCreatedAt, false),
      OwnerView(s.invoices, uid, InvoiceCreatedAt, true),
      OwnerView(s.transactions, uid, TransactionDate, true),
      OwnerView(s.inventory, uid, InventoryCreatedAt, false),
      if uid in s.profile then Some(s.profile[uid].profile) else None)
  }

  // ===========================================================================
  // Refreshing the store from a remote snapshot
  // ===========================================================================

  predicate SyncedOf<D>(row: Row<D>, uid: Uid) {
    row.uid == uid && row.status == Synced
  }

  /** Removes the owner's synced rows; pending rows, tombstones and other
      users' rows stay. */
  function DropSynced<D>(t: Table<D>, uid: Uid): (r: Table<D>)
    ensures forall k :: k in r <==> k in t && !SyncedOf(t[k], uid)
    ensures forall k :: k in r ==> r[k] == t[k]
  {
    map k | k in t && !SyncedOf(t[k], uid) :: t[k]
  }

  /** The owner's local records by id, whatever their status. */
  function OwnedRecords<D>(t: Table<D>, uid: Uid): (m: map<Id, D>)
    ensures forall k :: k in m <==> k in t && t[k].uid == uid
    ensures forall k :: k in m ==> m[k] == t[k].rec
  {
    map k | k in t && t[k].uid == uid :: t[k].rec
  }

  function Lookup<D>(m: map<Id, D>, k: Id): (r: Option<D>)
    ensures r.Some? <==> k in m
    ensures r.Some? ==> r.value == m[k]
  {
    if k in m then Some(m[k]) else None
  }

  function DocIds<D>(docs: seq<Doc<D>>): set<Id> {
    set i | 0 <= i < |docs| :: docs[i].id
  }

  /** docs[i] is the last document of the batch with its id. */
  predicate LastWithId<D>(docs: seq<Doc<D>>, i: int)
    requires 0 <= i < |docs|
  {
    forall j :: i < j < |docs| ==> docs[j].id != docs[i].id
  }

  /** The batch a fetch writes: one synced row of the owner per document. */
  function FetchedRows<D, R>(docs: seq<Doc<D>>, uid: Uid, build: (Id, D) -> R): (rows: seq<(Id, Row<R>)>)
    ensures |rows| == |docs|
    ensures forall i :: 0 <= i < |docs| ==> rows[i] == (docs[i].id, Row(build(docs[i].id, docs[i].data), uid, Synced))
  {
    seq(|docs|, i requires 0 <= i < |docs| => (docs[i].id, Row(build(docs[i].id, docs[i].data), uid, Synced)))
  }

  lemma FetchedIds<D, R>(docs: seq<Doc<D>>, uid: Uid, build: (Id, D) -> R)
    ensures BatchIds(FetchedRows(docs, uid, build)) == DocIds(docs)
  {
    var batch := FetchedRows(docs, uid, build);
    forall k | k in DocIds(docs)
      ensures k in BatchIds(batch)
    {
      var i :| 0 <= i < |docs| && docs[i].id == k;
      assert batch[i].0 == k;
    }
  }

  /** `bulkPut` of the fetched batch. */
  function PutFetched<D, R>(t: Table<R>, docs: seq<Doc<D>>, uid: Uid, build: (Id, D) -> R): (r: Table<R>)
    ensures r.Keys == t.Keys + DocIds(docs)
  {
    FetchedIds(docs, uid, build);
    BulkPut(t, FetchedRows(docs, uid, build))
  }

  /** A fetched id holds the row built from its last document, owned and
      synced; every other row is as it was. */
  lemma PutFetchedSpec<D, R>(t: Table<R>, docs: seq<Doc<D>>, uid: Uid, build: (Id, D) -> R)
    ensures var r := PutFetched(t, docs, uid, build);
            && (forall k :: k in t && k !in DocIds(docs) ==> r[k] == t[k])
            && (forall i :: 0 <= i < |docs| && LastWithId(docs, i) ==>
                  r[docs[i].id] == Row(build(docs[i].id, docs[i].data), uid, Synced))
  {
    var batch := FetchedRows(docs, uid, build);
    FetchedIds(docs, uid, build);
    BulkPutKeepsOthers(t, batch);
    forall i | 0 <= i < |docs| && LastWithId(docs, i)
      ensures PutFetched(t, docs, uid, build)[docs[i].id] == Row(build(docs[i].id, docs[i].data), uid, Synced)
    {
      BulkPutLastWins(t, batch, i);
    }
  }

  /** Some document of the batch is the last with a given fetched id. */
  lemma LastDocExists<D>(docs: seq<Doc<D>>, k: Id)
    requires k in DocIds(docs)
    ensures exists i :: 0 <= i < |docs| && docs[i].id == k && LastWithId(docs, i)
    decreases |docs|
  {
    var n := |docs| - 1;
    if docs[n].id != k {
      var j :| 0 <= j < |docs| && docs[j].id == k;
      assert docs[..n][j] == docs[j];
      LastDocExists(docs[..n], k);
      var i :| 0 <= i < n && docs[..n][i].id == k && LastWithId(docs[..n], i);
      assert docs[..n][i] == docs[i];
      assert LastWithId(docs, i) by {
        forall m | i < m < |docs|
          ensures docs[m].id != docs[i].id
        {
          if m < n {
            assert docs[..n][m] == docs[m];
          }
        }
      }
    }
  }

  /** after is before with the owner's synced rows dropped and the fetched
      ids written: the fetched ids hold owned synced rows, and every other id
      holds what it held unless it was a synced row of the owner's. */
  ghost predicate Refreshed<D>(before: Table<D>, after: Table<D>, uid: Uid, ids: set<Id>) {
    && (forall k :: k in after <==> k in ids || (k in before && !SyncedOf(before[k], uid)))
    && (forall k :: k in after && k !in ids ==> after[k] == before[k])
    && (forall k :: k in ids ==> k in after && SyncedOf(after[k], uid))
  }

  /** One table's refresh: drop the owner's synced rows, then write the batch. */
  function RefreshTable<D, R>(t: Table<R>, docs: seq<Doc<D>>, uid: Uid, build: (Id, D) -> R): Table<R> {
    PutFetched(DropSynced(t, uid), docs, uid, build)
  }

  lemma RefreshTableSpec<D, R>(t: Table<R>, docs: seq<Doc<D>>, uid: Uid, build: (Id, D) -> R)
    ensures Refreshed(t, RefreshTable(t, docs, uid, build), uid, DocIds(docs))
    ensures forall i :: 0 <= i < |docs| && LastWithId(docs, i) ==>
              RefreshTable(t, docs, uid, build)[docs[i].id].rec == build(docs[i].id, docs[i].data)
  {
    var r := RefreshTable(t, docs, uid, build);
    PutFetchedSpec(DropSynced(t, uid), docs, uid, build);
    forall k | k in DocIds(docs)
      ensures k in r && SyncedOf(r[k], uid)
    {
      LastDocExists(docs, k);
    }
  }

  function BuildEmployee(existing: map<Id, LocalEmployee>, now: string): (Id, EmployeeDoc) -> LocalEmployee {
    (id: Id, d: EmployeeDoc) => MergeEmployee(id, d, Lookup(existing, id), now)
  }

  function BuildInvoice(existing: map<Id, LocalInvoice>, now: string): (Id, InvoiceDoc) -> LocalInvoice {
    (id: Id, d: InvoiceDoc) => MergeInvoice(id, d, Lookup(existing, id), now)
  }

  function BuildInventoryItem(now: string): (Id, InventoryDoc) -> LocalInventoryItem {
    (id: Id, d: InventoryDoc) => FetchedInventoryItem(id, d, now)
  }

  /** `profile.put` when the remote document exists. */
  function PutFetchedProfile(p: map<Id, ProfileRow>, uid: Uid, d: Option<ProfileDoc>): (r: map<Id, ProfileRow>)
    ensures d.None? ==> r == p
    ensures d.Some? ==> r.Keys == p.Keys + {uid} && r[uid] == ProfileRow(FetchedProfile(uid, d.value), Synced)
    ensures forall k :: k in p && k != uid ==> k in r && r[k] == p[k]
  {
    if d.Some? then p[uid := ProfileRow(FetchedProfile(uid, d.value), Synced)] else p
  }

  /** The refresh as the engine performs it. Employees merge with all the
      owner's local records, read before the synced rows are dropped;
      invoices merge with the records left after the drop. Every fetched row
      is written as synced, over whatever row had its id, and the profile is
      replaced whenever the remote document exists. */
  function FetchAndCache(s: Store, uid: Uid, snap: Snapshot, now: string): Store {
    var existingEmps := OwnedRecords(s.employees, uid);
    var emps := RefreshTable(s.employees, snap.employees, uid, BuildEmployee(existingEmps, now));
    var existingInvs := OwnedRecords(DropSynced(s.invoices, uid), uid);
    var invs := RefreshTable(s.invoices, snap.invoices, uid, BuildInvoice(existingInvs, now));
    var txs := RefreshTable(s.transactions, snap.transactions, uid, FetchedTransaction);
    var items := RefreshTable(s.inventory, snap.inventory, uid, BuildInventoryItem(now));
    Store(emps, invs, txs, items, PutFetchedProfile(s.profile, uid, snap.profile))
  }

  /** Every table is refreshed: the owner's synced rows are replaced by the
      snapshot and the fetched rows are the owner's and synced. */
  lemma FetchAndCacheRefreshes(s: Store, uid: Uid, snap: Snapshot, now: string)
    ensures var r := FetchAndCache(s, uid, snap, now);
            && Refreshed(s.employees, r.employees, uid, DocIds(snap.employees))
            && Refreshed(s.invoices, r.invoices, uid, DocIds(snap.invoices))
            && Refreshed(s.transactions, r.transactions, uid, DocIds(snap.transactions))
            && Refreshed(s.inventory, r.inventory, uid, DocIds(snap.inventory))
  {
    var r := FetchAndCache(s, uid, snap, now);
    RefreshTableSpec(s.employees, snap.employees, uid, BuildEmployee(OwnedRecords(s.employees, uid), now));
    assert Refreshed(s.employees, r.employees, uid, DocIds(snap.employees));
    RefreshTableSpec(s.invoices, snap.invoices, uid, BuildInvoice(OwnedRecords(DropSynced(s.invoices, uid), uid), now));
    assert Refreshed(s.invoices, r.invoices, uid, DocIds(snap.invoices));
    RefreshTableSpec(s.transactions, snap.transactions, uid, FetchedTransaction);
    assert Refreshed(s.transactions, r.transactions, uid, DocIds(snap.transactions));
    RefreshTableSpec(s.inventory, snap.inventory, uid, BuildInventoryItem(now));
  }

  /** The record a fetched employee gets: the document's fields, falling back
      to the owner's local record of that id, whatever its status. */
  lemma FetchedEmployeeRecord(s: Store, uid: Uid, snap: Snapshot, now: string, i: nat)
    requires i < |snap.employees| && LastWithId(snap.employees, i)
    ensures var d := snap.employees[i];
            FetchAndCache(s, uid, snap, now).employees[d.id].rec
              == MergeEmployee(d.id, d.data, Lookup(OwnedRecords(s.employees, uid), d.id), now)
  {
    RefreshTableSpec(s.employees, snap.employees, uid, BuildEmployee(OwnedRecords(s.employees, uid), now));
  }

  // ---------------------------------------------------------------------------
  // Findings: pending rows overwritten, invoice merge after the drop
  // ---------------------------------------------------------------------------

  /** As written, a row the owner edited offline (pending) whose id is in the
      snapshot is overwritten by the fetched row and marked synced, so the
      edit is never pushed. */
  lemma FetchOverwritesPending(s: Store, uid: Uid, snap: Snapshot, now: string, k: Id)
    requires k in s.employees && PendingOf(s.employees[k], uid)
    requires k in DocIds(snap.employees)
    ensures FetchAndCache(s, uid, snap, now).employees[k].status == Synced
  {
    var emps := RefreshTable(s.employees, snap.employees, uid, BuildEmployee(OwnedRecords(s.employees, uid), now));
    assert FetchAndCache(s, uid, snap, now).employees == emps;
    RefreshTableSpec(s.employees, snap.employees, uid, BuildEmployee(OwnedRecords(s.employees, uid), now));
    assert k in emps && SyncedOf(emps[k], uid);
  }

  /** As written, a profile the owner edited offline is replaced by the
      remote document and marked synced whenever that document exists. */
  lemma FetchOverwritesPendingProfile(s: Store, uid: Uid, snap: Snapshot, now: string)
    requires uid in s.profile && s.profile[uid].status == SyncStatus.Pending
    requires snap.profile.Some?
    ensures uid in FetchAndCache(s, uid, snap, now).profile
    ensures FetchAndCache(s, uid, snap, now).profile[uid] == ProfileRow(FetchedProfile(uid, snap.profile.value), Synced)
  {
  }

  /** As written, the invoice merge reads the owner's records after the synced
      rows were dropped: a synced local invoice whose document lacks its items
      comes back with no items. */
  lemma FetchLosesSyncedInvoiceItems(s: Store, uid: Uid, snap: Snapshot, now: string, i: nat)
    requires i < |snap.invoices| && LastWithId(snap.invoices, i)
    requires var d := snap.invoices[i]; d.id in s.invoices && SyncedOf(s.invoices[d.id], uid) && d.data.items.None?
    ensures FetchAndCache(s, uid, snap, now).invoices[snap.invoices[i].id].rec.inv.items == []
  {
    var existing := OwnedRecords(DropSynced(s.invoices, uid), uid);
    RefreshTableSpec(s.invoices, snap.invoices, uid, BuildInvoice(existing, now));
    assert snap.invoices[i].id !in existing;
  }

  /** Keeps the documents whose id does not hold a pending row of the owner's. */
  function NotPending<D, R>(docs: seq<Doc<D>>, t: Table<R>, uid: Uid): (r: seq<Doc<D>>)
    ensures forall i :: 0 <= i < |r| ==> !(r[i].id in t && PendingOf(t[r[i].id], uid))
    ensures forall i :: 0 <= i < |docs| && !(docs[i].id in t && PendingOf(t[docs[i].id], uid)) ==> docs[i] in r
    ensures forall d :: d in r ==> d in docs
  {
    if docs == [] then []
    else
      var rest := NotPending(docs[1..], t, uid);
      assert forall d :: d in docs[1..] ==> d in docs;
      if docs[0].id in t && PendingOf(t[docs[0].id], uid) then rest else [docs[0]] + rest
  }

  /** The refresh with both defects corrected: invoices merge with the
      owner's records read before the drop, as employees do, and a fetched
      document never overwrites a row or profile the owner has pending. */
  function FetchAndCacheKeepingPending(s: Store, uid: Uid, snap: Snapshot, now: string): Store {
    var emps := RefreshTable(s.employees, NotPending(snap.employees, s.employees, uid), uid,
                             BuildEmployee(OwnedRecords(s.employees, uid), now));
    var invs := RefreshTable(s.invoices, NotPending(snap.invoices, s.invoices, uid), uid,
                             BuildInvoice(OwnedRecords(s.invoices, uid), now));
    var txs := RefreshTable(s.transactions, NotPending(snap.transactions, s.transactions, uid), uid, FetchedTransaction);
    var items := RefreshTable(s.inventory, NotPending(snap.inventory, s.inventory, uid), uid, BuildInventoryItem(now));
    var keepProfile := uid in s.profile && s.profile[uid].status == SyncStatus.Pending;
    Store(emps, invs, txs, items,
          if keepProfile then s.profile else PutFetchedProfile(s.profile, uid, snap.profile))
  }

  /** A refreshed table keeps every pending row of the owner's unchanged when
      the documents of those ids are left out. */
  lemma RefreshKeepsPending<D, R>(t: Table<R>, docs: seq<Doc<D>>, uid: Uid, build: (Id, D) -> R)
    ensures var r := RefreshTable(t, NotPending(docs, t, uid), uid, build);
            forall k :: k in t && PendingOf(t[k], uid) ==> k in r && r[k] == t[k]
  {
    var kept := NotPending(docs, t, uid);
    RefreshTableSpec(t, kept, uid, build);
    forall k | k in t && PendingOf(t[k], uid)
      ensures k !in DocIds(kept)
    {
      forall i | 0 <= i < |kept|
        ensures kept[i].id != k
      {
      }
    }
  }

  /** The corrected refresh loses no offline edit: every pending row of the
      owner's, and a pending profile, is left as it was. */
  lemma FetchKeepingPendingKeepsEdits(s: Store, uid: Uid, snap: Snapshot, now: string)
    ensures var r := FetchAndCacheKeepingPending(s, uid, snap, now);
            && (forall k :: k in s.employees && PendingOf(s.employees[k], uid) ==> k in r.employees && r.employees[k] == s.employees[k])
            && (forall k :: k in s.invoices && PendingOf(s.invoices[k], uid) ==> k in r.invoices && r.invoices[k] == s.invoices[k])
            && (forall k :: k in s.transactions && PendingOf(s.transactions[k], uid) ==> k in r.transactions && r.transactions[k] == s.transactions[k])
            && (forall k :: k in s.inventory && PendingOf(s.inventory[k], uid) ==> k in r.inventory && r.inventory[k] == s.inventory[k])
            && (uid in s.profile && s.profile[uid].status == SyncStatus.Pending ==> r.profile == s.profile)
  {
    RefreshKeepsPending(s.employees, snap.employees, uid, BuildEmployee(OwnedRecords(s.employees, uid), now));
    RefreshKeepsPending(s.invoices, snap.invoices, uid, BuildInvoice(OwnedRecords(s.invoices, uid), now));
    RefreshKeepsPending(s.transactions, snap.transactions, uid, FetchedTransaction);
    RefreshKeepsPending(s.inventory, snap.inventory, uid, BuildInventoryItem(now));
  }

  /** Putting a document in front keeps a later one the last with its id. */
  lemma LastWithIdCons<D>(x: Doc<D>, docs: seq<Doc<D>>, m: nat)
    requires m < |docs| && LastWithId(docs, m)
    ensures LastWithId([x] + docs, m + 1)
  {
    var xs := [x] + docs;
    forall j | m + 1 < j < |xs|
      ensures xs[j].id != xs[m + 1].id
    {
      assert xs[j] == docs[j - 1];
    }
  }

  /** A document that is the last with its id and is kept stays the last
      with its id among the kept ones. */
  lemma {:induction false} NotPendingKeepsLast<D, R>(docs: seq<Doc<D>>, t: Table<R>, uid: Uid, i: nat)
    requires i < |docs| && LastWithId(docs, i)
    requires !(docs[i].id in t && PendingOf(t[docs[i].id], uid))
    ensures exists m :: 0 <= m < |NotPending(docs, t, uid)| && NotPending(docs, t, uid)[m] == docs[i]
                        && LastWithId(NotPending(docs, t, uid), m)
  {
    var kept := NotPending(docs, t, uid);
    var tail := docs[1..];
    var rest := NotPending(tail, t, uid);
    if i == 0 {
      assert kept == [docs[0]] + rest;
      forall j | 0 < j < |kept|
        ensures kept[j].id != kept[0].id
      {
        assert kept[j] == rest[j - 1];
        assert kept[j] in tail;
        var q :| 0 <= q < |tail| && tail[q] == kept[j];
        assert docs[q + 1] == kept[j];
      }
      assert LastWithId(kept, 0);
    } else {
      assert tail[i - 1] == docs[i];
      assert LastWithId(tail, i - 1) by {
        forall j | i - 1 < j < |tail|
          ensures tail[j].id != tail[i - 1].id
        {
          assert tail[j] == docs[j + 1];
        }
      }
      NotPendingKeepsLast(tail, t, uid, i - 1);
      var m :| 0 <= m < |rest| && rest[m] == docs[i] && LastWithId(rest, m);
      if docs[0].id in t && PendingOf(t[docs[0].id], uid) {
        assert kept == rest;
      } else {
        assert kept == [docs[0]] + rest;
        LastWithIdCons(docs[0], rest, m);
        assert kept[m + 1] == docs[i];
      }
    }
  }

  /** In the corrected refresh an invoice merges with the owner's local record
      of its id whatever that record's status, as an employee does. */
  lemma FetchKeepingPendingMergesInvoices(s: Store, uid: Uid, snap: Snapshot, now: string, i: nat)
    requires i < |snap.invoices| && LastWithId(snap.invoices, i)
    requires var d := snap.invoices[i]; d.id in s.invoices && SyncedOf(s.invoices[d.id], uid)
    ensures var d := snap.invoices[i];
            FetchAndCacheKeepingPending(s, uid, snap, now).invoices[d.id].rec
              == MergeInvoice(d.id, d.data, Some(s.invoices[d.id].rec), now)
  {
    var d := snap.invoices[i];
    var kept := NotPending(snap.invoices, s.invoices, uid);
    NotPendingKeepsLast(snap.invoices, s.invoices, uid, i);
    var m :| 0 <= m < |kept| && kept[m] == d && LastWithId(kept, m);
    RefreshTableSpec(s.invoices, kept, uid, BuildInvoice(OwnedRecords(s.invoices, uid), now));
  }

  // ===========================================================================
  // Clearing the owner's data at logout
  // ===========================================================================

  /** Removes every row of the owner's, whatever its status. */
  function DropOwned<D>(t: Table<D>, uid: Uid): (r: Table<D>)
    ensures forall k :: k in r <==> k in t && t[k].uid != uid
    ensures forall k :: k in r ==> r[k] == t[k]
  {
    map k | k in t && t[k].uid != uid :: t[k]
  }

  function ClearLocalData(s: Store, uid: Uid): Store {
    Store(DropOwned(s.employees, uid), DropOwned(s.invoices, uid), DropOwned(s.transactions, uid),
          DropOwned(s.inventory, uid), s.profile - {uid})
  }

  /** After a logout the app shows nothing for the owner, pending rows
      included. */
  lemma ClearThenLoadIsEmpty(s: Store, uid: Uid)
    ensures LoadFromLocal(ClearLocalData(s, uid), uid) == LocalView([], [], [], [], None)
  {
    var c := ClearLocalData(s, uid);
    OwnerViewSpec(c.employees, uid, EmployeeCreatedAt, false);
    OwnerViewSpec(c.invoices, uid, InvoiceCreatedAt, true);
    OwnerViewSpec(c.transactions, uid, TransactionDate, true);
    OwnerViewSpec(c.inventory, uid, InventoryCreatedAt, false);
    assert (set k | k in c.employees && Visible(c.employees[k], uid)) == {};
    assert (set k | k in c.invoices && Visible(c.invoices[k], uid)) == {};
    assert (set k | k in c.transactions && Visible(c.transactions[k], uid)) == {};
    assert (set k | k in c.inventory && Visible(c.inventory[k], uid)) == {};
  }

  /** Other users' rows and profiles survive a logout untouched, and a second
      logout changes nothing. */
  lemma ClearKeepsOthers(s: Store, uid: Uid)
    ensures var c := ClearLocalData(s, uid);
            && (forall k :: k in s.employees && s.employees[k].uid != uid ==> k in c.employees && c.employees[k] == s.employees[k])
            && (forall k :: k in s.invoices && s.invoices[k].uid != uid ==> k in c.invoices && c.invoices[k] == s.invoices[k])
            && (forall k :: k in s.transactions && s.transactions[k].uid != uid ==> k in c.transactions && c.transactions[k] == s.transactions[k])
            && (forall k :: k in s.inventory && s.inventory[k].uid != uid ==> k in c.inventory && c.inventory[k] == s.inventory[k])
            && (forall k :: k in s.profile && k != uid ==> k in c.profile && c.profile[k] == s.profile[k])
            && ClearLocalData(c, uid) == c
  {
  }
}
