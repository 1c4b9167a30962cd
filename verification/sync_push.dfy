/** Pushing the owner's pending rows to the remote store, one write at a time:
    employees, invoices, transactions and inventory items as whole documents,
    then a status patch for every invoice still pending, then the settings of
    a pending profile. A row is marked synced right after its write goes
    through; the first failing write rejects the pass and leaves everything
    after it pending.

    The remote side is the parameter `failAt`: the position (counted from 0)
    of the first write of the pass that fails, if any. Later outcomes do not
    matter, since the first failure ends the pass. Positions are absolute
    positions in the pass, so the log of writes made so far doubles as the
    attempt counter. */
module SyncPush {
  import opened Common
  import opened LexOrder
  import opened Domain
  import opened LocalDb
  import opened Remote

  /** Write number n of the pass (counted from 0) goes through iff it comes
      before the first failing one. */
  predicate Succeeds(failAt: Option<nat>, n: nat) {
    failAt.None? || n < failAt.value
  }

  function Min(a: nat, b: nat): nat { if a < b then a else b }

  /** How many of a phase's len writes, placed at positions off.. of the
      pass, are among the first w. */
  function Clip(w: nat, off: nat, len: nat): (r: nat)
    ensures r <= len
    ensures w <= off ==> r == 0
    ensures w >= off + len ==> r == len
    ensures off <= w <= off + len ==> r == w - off
  {
    if w <= off then 0 else Min(w - off, len)
  }

  /** How many of len writes, starting with write n, go through. */
  function Done(failAt: Option<nat>, n: nat, len: nat): (r: nat)
    ensures r <= len
    ensures forall m :: n <= m < n + r ==> Succeeds(failAt, m)
    ensures r < len ==> !Succeeds(failAt, n + r)
  {
    if failAt.None? then len else Clip(failAt.value, n, len)
  }

  /** Within a pass of L writes, a phase at positions off.. gets through as
      many writes as the pass's first w reach into it. */
  lemma DoneWithin(failAt: Option<nat>, off: nat, len: nat, L: nat)
    requires off + len <= L
    ensures Done(failAt, off, len) == Clip(Done(failAt, 0, L), off, len)
  {
  }

  // ---------------------------------------------------------------------------
  // One table
  // ---------------------------------------------------------------------------

  /** The owner's pending rows of a table, in the order the pass visits them:
      by id, the order of the store's owner index. */
  function PendingIds<D>(t: Table<D>, uid: Uid): seq<Id> {
    SortedKeys(set k | k in t && PendingOf(t[k], uid))
  }

  /** The pass visits exactly the owner's pending rows, each once. */
  lemma PendingIdsSpec<D>(t: Table<D>, uid: Uid)
    ensures forall k :: k in PendingIds(t, uid) <==> k in t && PendingOf(t[k], uid)
    ensures forall i :: 0 <= i < |PendingIds(t, uid)| ==> PendingIds(t, uid)[i] in t
    ensures forall i, j :: 0 <= i < j < |PendingIds(t, uid)| ==> PendingIds(t, uid)[i] != PendingIds(t, uid)[j]
    ensures StrictlyAscending(PendingIds(t, uid))
  {
    var r := PendingIds(t, uid);
    SortedKeysSpec(set k | k in t && PendingOf(t[k], uid));
    forall i, j | 0 <= i < j < |r|
      ensures r[i] != r[j]
    {
      AscendingDistinct(r, i, j);
    }
  }

  datatype Phase<D> = Phase(table: Table<D>, log: seq<Write>, failed: bool)

  /** Writes the rows under ids in order after the writes in log, marking
      each synced once its write went through, and stops at the first
      failure. */
  function PushRows<D>(t: Table<D>, ids: seq<Id>, log: seq<Write>, failAt: Option<nat>, payload: (Id, D) -> Write): Phase<D>
    requires forall i :: 0 <= i < |ids| ==> ids[i] in t
    decreases |ids|
  {
    if ids == [] then Phase(t, log, false)
    else if !Succeeds(failAt, |log|) then Phase(t, log, true)
    else
      var id := ids[0];
      PushRows(SetStatus(t, id, Synced), ids[1..], log + [payload(id, t[id].rec)], failAt, payload)
  }

  /** The writes for the rows under ids, in order, each with its row's data. */
  function Writes<D>(t: Table<D>, ids: seq<Id>, payload: (Id, D) -> Write): (r: seq<Write>)
    requires forall i :: 0 <= i < |ids| ==> ids[i] in t
    ensures |r| == |ids|
  {
    seq(|ids|, i requires 0 <= i < |ids| => payload(ids[i], t[ids[i]].rec))
  }

  /** The table with the rows under ids marked synced. */
  function MarkSynced<D>(t: Table<D>, ids: seq<Id>): (r: Table<D>)
    ensures r.Keys == t.Keys
    decreases |ids|
  {
    if ids == [] then t else MarkSynced(SetStatus(t, ids[0], Synced), ids[1..])
  }

  /** Exactly the rows under ids change, and only their status, to synced. */
  lemma {:induction false} MarkSyncedSpec<D>(t: Table<D>, ids: seq<Id>)
    ensures forall k :: k in t ==> MarkSynced(t, ids)[k] == if k in ids then t[k].(status := Synced) else t[k]
    decreases |ids|
  {
    if ids != [] {
      var t1 := SetStatus(t, ids[0], Synced);
      MarkSyncedSpec(t1, ids[1..]);
      forall k | k in t
        ensures MarkSynced(t, ids)[k] == if k in ids then t[k].(status := Synced) else t[k]
      {
        assert k in ids <==> k == ids[0] || k in ids[1..];
      }
    }
  }

  /** The writes of a prefix of the ids are a prefix of the writes. */
  lemma WritesPrefix<D>(t: Table<D>, ids: seq<Id>, c: nat, payload: (Id, D) -> Write)
    requires forall i :: 0 <= i < |ids| ==> ids[i] in t
    requires c <= |ids|
    ensures Writes(t, ids[..c], payload) == Writes(t, ids, payload)[..c]
  {
  }

  lemma WritesFirst<D>(t: Table<D>, ids: seq<Id>, payload: (Id, D) -> Write)
    requires forall i :: 0 <= i < |ids| ==> ids[i] in t
    requires ids != []
    ensures Writes(t, ids, payload) == [payload(ids[0], t[ids[0]].rec)] + Writes(t, ids[1..], payload)
  {
  }

  lemma TakeAfterFirst<T>(a: seq<T>, c: nat)
    requires 0 < c <= |a|
    ensures a[..c][0] == a[0]
    ensures a[..c][1..] == a[1..][..c - 1]
  {
  }

  /** Writing does not depend on the rows' status. */
  lemma WritesIgnoreStatus<D>(t: Table<D>, id: Id, ids: seq<Id>, payload: (Id, D) -> Write)
    requires forall i :: 0 <= i < |ids| ==> ids[i] in t
    ensures Writes(SetStatus(t, id, Synced), ids, payload) == Writes(t, ids, payload)
  {
  }

  /** The phase a pass over ids makes when c of its writes go through. */
  function PhaseOf<D>(t: Table<D>, ids: seq<Id>, log: seq<Write>, c: nat, payload: (Id, D) -> Write): Phase<D>
    requires forall i :: 0 <= i < |ids| ==> ids[i] in t
    requires c <= |ids|
  {
    Phase(MarkSynced(t, ids[..c]), log + Writes(t, ids[..c], payload), c < |ids|)
  }

  /** One step of the phase: the first write goes through, and the rest of
      the phase is the phase over the remaining ids. */
  lemma PushRowsStep<D>(t: Table<D>, ids: seq<Id>, log: seq<Write>, failAt: Option<nat>, payload: (Id, D) -> Write)
    requires forall i :: 0 <= i < |ids| ==> ids[i] in t
    requires ids != [] && Succeeds(failAt, |log|)
    ensures var t1 := SetStatus(t, ids[0], Synced);
            var log1 := log + [payload(ids[0], t[ids[0]].rec)];
            PhaseOf(t1, ids[1..], log1, Done(failAt, |log1|, |ids| - 1), payload)
              == PhaseOf(t, ids, log, Done(failAt, |log|, |ids|), payload)
  {
    var id := ids[0];
    var t1 := SetStatus(t, id, Synced);
    var log1 := log + [payload(id, t[id].rec)];
    var c := Done(failAt, |log|, |ids|);
    var c1 := Done(failAt, |log1|, |ids[1..]|);
    assert c == 1 + c1;
    assert MarkSynced(t, ids[..c]) == MarkSynced(t1, ids[1..][..c1]) by {
      TakeAfterFirst(ids, c);
    }
    assert log + Writes(t, ids[..c], payload) == log1 + Writes(t1, ids[1..][..c1], payload) by {
      TakeAfterFirst(ids, c);
      WritesIgnoreStatus(t, id, ids[1..][..c1], payload);
      WritesFirst(t, ids[..c], payload);
    }
  }

  /** A phase over ids after the writes in log: with c the writes that go
      through, it marks the first c rows synced, appends their writes, and
      fails iff it stopped short. */
  lemma {:induction false} PushRowsIs<D>(t: Table<D>, ids: seq<Id>, log: seq<Write>, failAt: Option<nat>, payload: (Id, D) -> Write)
    requires forall i :: 0 <= i < |ids| ==> ids[i] in t
    ensures var c := Done(failAt, |log|, |ids|);
            PushRows(t, ids, log, failAt, payload)
              == Phase(MarkSynced(t, ids[..c]), log + Writes(t, ids[..c], payload), c < |ids|)
    decreases |ids|
  {
    var c := Done(failAt, |log|, |ids|);
    if ids == [] || !Succeeds(failAt, |log|) {
      assert ids[..c] == [];
    } else {
      var id := ids[0];
      var t1 := SetStatus(t, id, Synced);
      var log1 := log + [payload(id, t[id].rec)];
      PushRowsIs(t1, ids[1..], log1, failAt, payload);
      PushRowsStep(t, ids, log, failAt, payload);
      assert PushRows(t, ids, log, failAt, payload) == PushRows(t1, ids[1..], log1, failAt, payload);
    }
  }

  /** The pass over one table's pending rows, after the writes in log. */
  function PushTable<D>(t: Table<D>, uid: Uid, log: seq<Write>, failAt: Option<nat>, payload: (Id, D) -> Write): Phase<D> {
    PendingIdsSpec(t, uid);
    PushRows(t, PendingIds(t, uid), log, failAt, payload)
  }

  /** Every write of one table's phase when none fails. */
  function TableWrites<D>(t: Table<D>, uid: Uid, payload: (Id, D) -> Write): (r: seq<Write>)
    ensures |r| == |PendingIds(t, uid)|
  {
    PendingIdsSpec(t, uid);
    Writes(t, PendingIds(t, uid), payload)
  }

  /** The table after the first c of its pending rows went through. */
  function TableAfter<D>(t: Table<D>, uid: Uid, c: nat): Table<D> {
    MarkSynced(t, PendingIds(t, uid)[..Min(c, |PendingIds(t, uid)|)])
  }

  lemma PushTableIs<D>(t: Table<D>, uid: Uid, log: seq<Write>, failAt: Option<nat>, payload: (Id, D) -> Write)
    ensures var c := Done(failAt, |log|, |PendingIds(t, uid)|);
            PushTable(t, uid, log, failAt, payload)
              == Phase(TableAfter(t, uid, c), log + TableWrites(t, uid, payload)[..c], c < |PendingIds(t, uid)|)
  {
    var ids := PendingIds(t, uid);
    PendingIdsSpec(t, uid);
    var c := Done(failAt, |log|, |ids|);
    PushRowsIs(t, ids, log, failAt, payload);
    WritesPrefix(t, ids, c, payload);
  }

  /** The rows of the first c pending ones are marked synced; every other row
      is unchanged. */
  lemma TableAfterSpec<D>(t: Table<D>, uid: Uid, c: nat)
    ensures TableAfter(t, uid, c).Keys == t.Keys
    ensures forall k :: k in t ==>
              TableAfter(t, uid, c)[k] == (if k in PendingIds(t, uid)[..Min(c, |PendingIds(t, uid)|)] then t[k].(status := Synced) else t[k])
  {
    MarkSyncedSpec(t, PendingIds(t, uid)[..Min(c, |PendingIds(t, uid)|)]);
  }

  /** after differs from before at most in the status of the owner's pending
      rows: same keys, same records, every other row as it was. */
  ghost predicate OnlyMarks<D>(before: Table<D>, after: Table<D>, uid: Uid) {
    && after.Keys == before.Keys
    && (forall k :: k in before && !PendingOf(before[k], uid) ==> after[k] == before[k])
    && (forall k :: k in before ==> after[k].rec == before[k].rec)
  }

  /** A phase never touches rows that are not the owner's pending ones. */
  lemma TableAfterKeepsOthers<D>(t: Table<D>, uid: Uid, c: nat)
    ensures OnlyMarks(t, TableAfter(t, uid, c), uid)
  {
    TableAfterSpec(t, uid, c);
    PendingIdsSpec(t, uid);
    var ids := PendingIds(t, uid);
    forall k | k in t && !PendingOf(t[k], uid)
      ensures TableAfter(t, uid, c)[k] == t[k]
    {
      assert k !in ids;
      assert k !in ids[..Min(c, |ids|)];
    }
  }

  /** After a phase that went through completely, none of the owner's rows of
      that table is pending. */
  lemma NoneLeftPending<D>(t: Table<D>, uid: Uid)
    ensures PendingIds(TableAfter(t, uid, |PendingIds(t, uid)|), uid) == []
  {
    var ids := PendingIds(t, uid);
    var after := TableAfter(t, uid, |ids|);
    assert ids[..|ids|] == ids;
    TableAfterSpec(t, uid, |ids|);
    PendingIdsSpec(t, uid);
    PendingIdsSpec(after, uid);
    forall k | k in after
      ensures !PendingOf(after[k], uid)
    {
      if PendingOf(t[k], uid) {
        assert k in ids;
      }
    }
    assert (set k | k in after && PendingOf(after[k], uid)) == {};
  }

  lemma TableAfterNothing<D>(t: Table<D>, uid: Uid)
    ensures TableAfter(t, uid, 0) == t
  {
    assert PendingIds(t, uid)[..0] == [];
  }

  /** A table the owner has no pending rows in comes out of its phase unchanged. */
  lemma TableAfterNonePending<D>(t: Table<D>, uid: Uid, c: nat)
    requires PendingIds(t, uid) == []
    ensures TableAfter(t, uid, c) == t
  {
    assert PendingIds(t, uid)[..0] == [];
  }

  /** Two cuts of a table's phase that both cover all or the same part of it. */
  lemma TableAfterSame<D>(t: Table<D>, uid: Uid, c: nat, d: nat)
    requires Min(c, |PendingIds(t, uid)|) == Min(d, |PendingIds(t, uid)|)
    ensures TableAfter(t, uid, c) == TableAfter(t, uid, d)
  {
  }

  lemma TakeAll<T>(a: seq<T>)
    ensures a[..|a|] == a
    ensures [] + a == a
  {
  }

  /** The first n writes of a plan of three parts, when the cut is in the
      third. */
  lemma Cut3<T>(a: seq<T>, b: seq<T>, c: seq<T>, d: seq<T>, n: nat)
    requires |a| + |b| <= n <= |a| + |b| + |c|
    ensures (a + (b + (c + d)))[..n] == a + b + c[..n - |a| - |b|]
  {
  }

  lemma Cut4<T>(a: seq<T>, b: seq<T>, c: seq<T>, d: seq<T>, n: nat)
    requires |a| + |b| + |c| <= n <= |a| + |b| + |c| + |d|
    ensures (a + (b + (c + d)))[..n] == a + b + c + d[..n - |a| - |b| - |c|]
  {
  }

  lemma Cut5<T>(a: seq<T>, b: seq<T>, c: seq<T>, d: seq<T>, e: seq<T>, n: nat)
    requires |a| + |b| + |c| + |d| <= n <= |a| + |b| + |c| + |d| + |e|
    ensures (a + (b + (c + (d + e))))[..n] == a + b + c + d + e[..n - |a| - |b| - |c| - |d|]
  {
  }

  /** A stage's full writes followed by the next stage's first writes. */
  lemma Glue<T>(log: seq<T>, a: seq<T>, b: seq<T>, c: nat)
    requires |a| <= c <= |a| + |b|
    ensures (log + a) + b[..c - |a|] == log + (a + b)[..c]
  {
  }

  /** A stage that stopped within its own writes. */
  lemma GlueShort<T>(log: seq<T>, a: seq<T>, b: seq<T>, c: nat)
    requires c <= |a|
    ensures log + a[..c] == log + (a + b)[..c]
  {
  }

  /** A cut within the front part of a concatenation. */
  lemma TakeFront<T>(a: seq<T>, b: seq<T>, n: nat)
    requires n <= |a|
    ensures (a + b)[..n] == a[..n]
  {
  }

  /** A cut beyond the front part of a concatenation. */
  lemma TakeBeyond<T>(a: seq<T>, b: seq<T>, n: nat)
    requires |a| <= n <= |a| + |b|
    ensures (a + b)[..n] == a + b[..n - |a|]
  {
  }

  // ---------------------------------------------------------------------------
  // The profile
  // ---------------------------------------------------------------------------

  predicate ProfilePending(p: map<Id, ProfileRow>, uid: Uid) {
    uid in p && p[uid].status == SyncStatus.Pending
  }

  /** The settings patch of the owner's profile, if it is pending. */
  function ProfileWrites(p: map<Id, ProfileRow>, uid: Uid): (r: seq<Write>)
    ensures |r| == if ProfilePending(p, uid) then 1 else 0
  {
    if ProfilePending(p, uid) then [PatchProfile(uid, PatchOf(p[uid].profile))] else []
  }

  /** The profile table with the owner's pending row marked synced when its
      write went through. */
  function ProfileAfter(p: map<Id, ProfileRow>, uid: Uid, done: bool): map<Id, ProfileRow> {
    if done && ProfilePending(p, uid) then p[uid := p[uid].(status := Synced)] else p
  }

  /** Only the owner's row changes, and only when it was pending and its write
      went through: then it is synced. */
  lemma ProfileAfterSpec(p: map<Id, ProfileRow>, uid: Uid, done: bool)
    ensures ProfileAfter(p, uid, done).Keys == p.Keys
    ensures forall k :: k in p && k != uid ==> ProfileAfter(p, uid, done)[k] == p[k]
    ensures uid in p ==>
              ProfileAfter(p, uid, done)[uid] == (if done && ProfilePending(p, uid) then p[uid].(status := Synced) else p[uid])
  {
  }

  datatype ProfilePhase = ProfilePhase(profile: map<Id, ProfileRow>, log: seq<Write>, failed: bool)

  /** The last loop of the pass: the owner's profile row, if pending, is
      patched remotely and then marked synced. */
  function PushProfile(p: map<Id, ProfileRow>, uid: Uid, log: seq<Write>, failAt: Option<nat>): ProfilePhase {
    if ProfilePending(p, uid) then
      if Succeeds(failAt, |log|) then
        ProfilePhase(p[uid := p[uid].(status := Synced)], log + [PatchProfile(uid, PatchOf(p[uid].profile))], false)
      else ProfilePhase(p, log, true)
    else ProfilePhase(p, log, false)
  }

  lemma PushProfileIs(p: map<Id, ProfileRow>, uid: Uid, log: seq<Write>, failAt: Option<nat>)
    ensures var c := Done(failAt, |log|, |ProfileWrites(p, uid)|);
            PushProfile(p, uid, log, failAt)
              == ProfilePhase(ProfileAfter(p, uid, c > 0), log + ProfileWrites(p, uid)[..c], c < |ProfileWrites(p, uid)|)
  {
    var c := Done(failAt, |log|, |ProfileWrites(p, uid)|);
    if ProfilePending(p, uid) && Succeeds(failAt, |log|) {
      assert c == 1;
    } else {
      assert ProfileWrites(p, uid)[..c] == [];
    }
  }

  // ---------------------------------------------------------------------------
  // The pass
  // ---------------------------------------------------------------------------

  /** A failed pass ends with the writes that went through; a completed one
      also reports how many it made. */
  datatype PushResult =
    | PushOk(count: nat, store: Store, log: seq<Write>)
    | PushFailed(store: Store, log: seq<Write>)

  function EmployeeWrite(id: Id, l: LocalEmployee): Write { SetEmployee(id, EmployeePayload(l)) }
  function InvoiceWrite(id: Id, l: LocalInvoice): Write { SetInvoice(id, InvoicePayload(l)) }
  function TransactionWrite(id: Id, t: Transaction): Write { SetTransaction(id, TransactionPayload(t)) }
  function InventoryWrite(id: Id, l: LocalInventoryItem): Write { SetInventory(id, InventoryPayload(l)) }
  function StatusWrite(id: Id, l: LocalInvoice): Write { PatchInvoiceStatus(id, l.inv.status) }

  /** The pass, loop by loop: employees, invoices, transactions and inventory
      items as whole documents, a status patch for each invoice still pending,
      then the profile's settings. Each loop reads the owner's pending rows
      when it starts; the first failing write ends the pass. */
  function SyncPending(s: Store, uid: Uid, failAt: Option<nat>): PushResult {
    var e := PushTable(s.employees, uid, [], failAt, EmployeeWrite);
    var s1 := s.(employees := e.table);
    if e.failed then PushFailed(s1, e.log) else
    var i := PushTable(s1.invoices, uid, e.log, failAt, InvoiceWrite);
    var s2 := s1.(invoices := i.table);
    if i.failed then PushFailed(s2, i.log) else
    var t := PushTable(s2.transactions, uid, i.log, failAt, TransactionWrite);
    var s3 := s2.(transactions := t.table);
    if t.failed then PushFailed(s3, t.log) else
    var n := PushTable(s3.inventory, uid, t.log, failAt, InventoryWrite);
    var s4 := s3.(inventory := n.table);
    if n.failed then PushFailed(s4, n.log) else
    FinishPass(s4, uid, n.log, failAt)
  }

  /** The last two loops of the pass: the invoice status patches, then the
      profile. */
  function FinishPass(s4: Store, uid: Uid, log: seq<Write>, failAt: Option<nat>): PushResult {
    var st := PushTable(s4.invoices, uid, log, failAt, StatusWrite);
    var s5 := s4.(invoices := st.table);
    if st.failed then PushFailed(s5, st.log) else
    var p := PushProfile(s5.profile, uid, st.log, failAt);
    var s6 := s5.(profile := p.profile);
    if p.failed then PushFailed(s6, p.log) else PushOk(|p.log|, s6, p.log)
  }

  /** With no invoice of the owner pending, the status loop writes nothing and
      only the profile write remains. */
  lemma FinishPassIs(s4: Store, uid: Uid, log: seq<Write>, failAt: Option<nat>)
    requires PendingIds(s4.invoices, uid) == []
    ensures var P := ProfileWrites(s4.profile, uid);
            var c := Done(failAt, |log|, |P|);
            var st := s4.(profile := ProfileAfter(s4.profile, uid, c > 0));
            FinishPass(s4, uid, log, failAt)
              == if c < |P| then PushFailed(st, log + P[..c]) else PushOk(|log + P[..c]|, st, log + P[..c])
  {
    PushTableIs(s4.invoices, uid, log, failAt, StatusWrite);
    TableAfterNothing(s4.invoices, uid);
    assert TableWrites(s4.invoices, uid, StatusWrite)[..0] == [];
    assert log + [] == log;
    PushProfileIs(s4.profile, uid, log, failAt);
  }

  /** Every write a pass over s makes when none fails, in order: the owner's
      pending employees, invoices, transactions and inventory items, each
      table by id, then the profile's settings if it is pending. The status
      loop contributes nothing: once the invoice loop went through, no
      invoice of the owner is pending. */
  function Planned(s: Store, uid: Uid): seq<Write> {
    TableWrites(s.employees, uid, EmployeeWrite)
    + (TableWrites(s.invoices, uid, InvoiceWrite)
    + (TableWrites(s.transactions, uid, TransactionWrite)
    + (TableWrites(s.inventory, uid, InventoryWrite)
    + ProfileWrites(s.profile, uid))))
  }

  /** The store after the first w planned writes went through: exactly the
      rows of those writes are marked synced. */
  function StoreAfter(s: Store, uid: Uid, w: nat): Store {
    var le := |PendingIds(s.employees, uid)|;
    var li := |PendingIds(s.invoices, uid)|;
    var lt := |PendingIds(s.transactions, uid)|;
    var ln := |PendingIds(s.inventory, uid)|;
    Store(TableAfter(s.employees, uid, w),
          TableAfter(s.invoices, uid, Clip(w, le, li)),
          TableAfter(s.transactions, uid, Clip(w, le + li, lt)),
          TableAfter(s.inventory, uid, Clip(w, le + li + lt, ln)),
          ProfileAfter(s.profile, uid, w > le + li + lt + ln))
  }

  /** The planned writes from the invoices on. */
  function PlannedAfterEmployees(s: Store, uid: Uid): seq<Write> {
    TableWrites(s.invoices, uid, InvoiceWrite)
    + (TableWrites(s.transactions, uid, TransactionWrite)
    + (TableWrites(s.inventory, uid, InventoryWrite)
    + ProfileWrites(s.profile, uid)))
  }

  function PlannedAfterInvoices(s: Store, uid: Uid): seq<Write> {
    TableWrites(s.transactions, uid, TransactionWrite)
    + (TableWrites(s.inventory, uid, InventoryWrite)
    + ProfileWrites(s.profile, uid))
  }

  function PlannedAfterTransactions(s: Store, uid: Uid): seq<Write> {
    TableWrites(s.inventory, uid, InventoryWrite) + ProfileWrites(s.profile, uid)
  }

  /** r completes iff ok, reporting the number of writes it made; its log
      and its store are the given ones. */
  predicate IsOutcome(r: PushResult, ok: bool, st: Store, log: seq<Write>) {
    && (r.PushOk? <==> ok)
    && (r.PushOk? ==> r.count == |log|)
    && r.log == log
    && r.store == st
  }

  /** The outcome the pass must have when w of its planned writes go through. */
  predicate PassOutcome(r: PushResult, s: Store, uid: Uid, w: nat)
    requires w <= |Planned(s, uid)|
  {
    IsOutcome(r, w == |Planned(s, uid)|, StoreAfter(s, uid, w), Planned(s, uid)[..w])
  }

  function Passed(s: Store, uid: Uid, failAt: Option<nat>): (w: nat)
    ensures w <= |Planned(s, uid)|
  {
    Done(failAt, 0, |Planned(s, uid)|)
  }

  /** A table phase that starts at position off of a pass in which w writes
      go through, and that all of its writes get past. */
  lemma PhaseThrough<D>(t: Table<D>, uid: Uid, log: seq<Write>, failAt: Option<nat>, payload: (Id, D) -> Write, w: nat, L: nat)
    requires |log| + |PendingIds(t, uid)| <= w <= L && w == Done(failAt, 0, L)
    ensures PushTable(t, uid, log, failAt, payload)
              == Phase(TableAfter(t, uid, |PendingIds(t, uid)|), log + TableWrites(t, uid, payload), false)
  {
    PushTableIs(t, uid, log, failAt, payload);
    DoneWithin(failAt, |log|, |PendingIds(t, uid)|, L);
    TakeAll(TableWrites(t, uid, payload));
  }

  /** A table phase in which the first failure of the pass falls. */
  lemma PhaseStops<D>(t: Table<D>, uid: Uid, log: seq<Write>, failAt: Option<nat>, payload: (Id, D) -> Write, w: nat, L: nat)
    requires |log| <= w < |log| + |PendingIds(t, uid)| && |log| + |PendingIds(t, uid)| <= L && w == Done(failAt, 0, L)
    ensures PushTable(t, uid, log, failAt, payload)
              == Phase(TableAfter(t, uid, w - |log|), log + TableWrites(t, uid, payload)[..w - |log|], true)
  {
    PushTableIs(t, uid, log, failAt, payload);
    DoneWithin(failAt, |log|, |PendingIds(t, uid)|, L);
  }

  /** The store after the first w planned writes, phase by phase: the
      phases before w are complete, the one w falls in partly done, the rest
      untouched. */
  lemma StoreAfterParts(s: Store, uid: Uid, w: nat)
    ensures var le, li := |PendingIds(s.employees, uid)|, |PendingIds(s.invoices, uid)|;
            var lt, ln := |PendingIds(s.transactions, uid)|, |PendingIds(s.inventory, uid)|;
            StoreAfter(s, uid, w)
              == Store(TableAfter(s.employees, uid, Min(w, le)),
                       TableAfter(s.invoices, uid, Clip(w, le, li)),
                       TableAfter(s.transactions, uid, Clip(w, le + li, lt)),
                       TableAfter(s.inventory, uid, Clip(w, le + li + lt, ln)),
                       ProfileAfter(s.profile, uid, w > le + li + lt + ln))
  {
    TableAfterSame(s.employees, uid, w, Min(w, |PendingIds(s.employees, uid)|));
  }

  lemma SyncFailsInEmployees(s: Store, uid: Uid, failAt: Option<nat>)
    requires Passed(s, uid, failAt) < |PendingIds(s.employees, uid)|
    ensures PassOutcome(SyncPending(s, uid, failAt), s, uid, Passed(s, uid, failAt))
  {
    var E := TableWrites(s.employees, uid, EmployeeWrite);
    var L := |Planned(s, uid)|;
    var w := Passed(s, uid, failAt);
    PhaseStops(s.employees, uid, [], failAt, EmployeeWrite, w, L);
    TakeFront(E, PlannedAfterEmployees(s, uid), w);
    StoreAfterParts(s, uid, w);
    TableAfterNothing(s.invoices, uid);
    TableAfterNothing(s.transactions, uid);
    TableAfterNothing(s.inventory, uid);
    var st := s.(employees := TableAfter(s.employees, uid, w));
    assert StoreAfter(s, uid, w) == st;
    assert SyncPending(s, uid, failAt) == PushFailed(st, [] + E[..w]);
  }

  /** The pass when its first failure falls in the invoices phase. */
  lemma InvoicesStops(s: Store, uid: Uid, failAt: Option<nat>)
    requires var le := |PendingIds(s.employees, uid)|;
             le <= Passed(s, uid, failAt) < le + |PendingIds(s.invoices, uid)|
    ensures var le := |PendingIds(s.employees, uid)|;
            var x := Passed(s, uid, failAt) - le;
            SyncPending(s, uid, failAt)
              == PushFailed(s.(employees := TableAfter(s.employees, uid, le), invoices := TableAfter(s.invoices, uid, x)),
                            TableWrites(s.employees, uid, EmployeeWrite) + TableWrites(s.invoices, uid, InvoiceWrite)[..x])
  {
    var E := TableWrites(s.employees, uid, EmployeeWrite);
    var L := |Planned(s, uid)|;
    var w := Passed(s, uid, failAt);
    PhaseThrough(s.employees, uid, [], failAt, EmployeeWrite, w, L);
    TakeAll(E);
    PhaseStops(s.invoices, uid, E, failAt, InvoiceWrite, w, L);
  }

  lemma SyncFailsInInvoices(s: Store, uid: Uid, failAt: Option<nat>)
    requires var le := |PendingIds(s.employees, uid)|;
             le <= Passed(s, uid, failAt) < le + |PendingIds(s.invoices, uid)|
    ensures PassOutcome(SyncPending(s, uid, failAt), s, uid, Passed(s, uid, failAt))
  {
    var E := TableWrites(s.employees, uid, EmployeeWrite);
    var I := TableWrites(s.invoices, uid, InvoiceWrite);
    var le, li := |E|, |I|;
    var w := Passed(s, uid, failAt);
    InvoicesStops(s, uid, failAt);
    TakeBeyond(E, PlannedAfterEmployees(s, uid), w);
    TakeFront(I, PlannedAfterInvoices(s, uid), w - le);
    StoreAfterParts(s, uid, w);
    TableAfterNothing(s.transactions, uid);
    TableAfterNothing(s.inventory, uid);
  }

  /** The pass when its first failure falls in the transactions phase. */
  lemma TransactionsStops(s: Store, uid: Uid, failAt: Option<nat>)
    requires var le, li := |PendingIds(s.employees, uid)|, |PendingIds(s.invoices, uid)|;
             le + li <= Passed(s, uid, failAt) < le + li + |PendingIds(s.transactions, uid)|
    ensures var le, li := |PendingIds(s.employees, uid)|, |PendingIds(s.invoices, uid)|;
            var x := Passed(s, uid, failAt) - le - li;
            SyncPending(s, uid, failAt)
              == PushFailed(s.(employees := TableAfter(s.employees, uid, le), invoices := TableAfter(s.invoices, uid, li),
                               transactions := TableAfter(s.transactions, uid, x)),
                            TableWrites(s.employees, uid, EmployeeWrite) + TableWrites(s.invoices, uid, InvoiceWrite)
                            + TableWrites(s.transactions, uid, TransactionWrite)[..x])
  {
    var E := TableWrites(s.employees, uid, EmployeeWrite);
    var L := |Planned(s, uid)|;
    var w := Passed(s, uid, failAt);
    PhaseThrough(s.employees, uid, [], failAt, EmployeeWrite, w, L);
    TakeAll(E);
    PhaseThrough(s.invoices, uid, E, failAt, InvoiceWrite, w, L);
    PhaseStops(s.transactions, uid, E + TableWrites(s.invoices, uid, InvoiceWrite), failAt, TransactionWrite, w, L);
  }

  lemma SyncFailsInTransactions(s: Store, uid: Uid, failAt: Option<nat>)
    requires var le, li := |PendingIds(s.employees, uid)|, |PendingIds(s.invoices, uid)|;
             le + li <= Passed(s, uid, failAt) < le + li + |PendingIds(s.transactions, uid)|
    ensures PassOutcome(SyncPending(s, uid, failAt), s, uid, Passed(s, uid, failAt))
  {
    var E := TableWrites(s.employees, uid, EmployeeWrite);
    var I := TableWrites(s.invoices, uid, InvoiceWrite);
    var T := TableWrites(s.transactions, uid, TransactionWrite);
    var le, li := |E|, |I|;
    var w := Passed(s, uid, failAt);
    TransactionsStops(s, uid, failAt);
    Cut3(E, I, T, PlannedAfterTransactions(s, uid), w);
    StoreAfterParts(s, uid, w);
    TableAfterSame(s.invoices, uid, Clip(w, le, li), li);
    TableAfterNothing(s.inventory, uid);
  }

  /** The pass when its first failure falls in the inventory phase. */
  lemma InventoryStops(s: Store, uid: Uid, failAt: Option<nat>)
    requires var le, li, lt := |PendingIds(s.employees, uid)|, |PendingIds(s.invoices, uid)|, |PendingIds(s.transactions, uid)|;
             le + li + lt <= Passed(s, uid, failAt) < le + li + lt + |PendingIds(s.inventory, uid)|
    ensures var le, li, lt := |PendingIds(s.employees, uid)|, |PendingIds(s.invoices, uid)|, |PendingIds(s.transactions, uid)|;
            var x := Passed(s, uid, failAt) - le - li - lt;
            SyncPending(s, uid, failAt)
              == PushFailed(s.(employees := TableAfter(s.employees, uid, le), invoices := TableAfter(s.invoices, uid, li),
                               transactions := TableAfter(s.transactions, uid, lt), inventory := TableAfter(s.inventory, uid, x)),
                            TableWrites(s.employees, uid, EmployeeWrite) + TableWrites(s.invoices, uid, InvoiceWrite)
                            + TableWrites(s.transactions, uid, TransactionWrite) + TableWrites(s.inventory, uid, InventoryWrite)[..x])
  {
    var E := TableWrites(s.employees, uid, EmployeeWrite);
    var I := TableWrites(s.invoices, uid, InvoiceWrite);
    var L := |Planned(s, uid)|;
    var w := Passed(s, uid, failAt);
    PhaseThrough(s.employees, uid, [], failAt, EmployeeWrite, w, L);
    TakeAll(E);
    PhaseThrough(s.invoices, uid, E, failAt, InvoiceWrite, w, L);
    PhaseThrough(s.transactions, uid, E + I, failAt, TransactionWrite, w, L);
    PhaseStops(s.inventory, uid, E + I + TableWrites(s.transactions, uid, TransactionWrite), failAt, InventoryWrite, w, L);
  }

  lemma SyncFailsInInventory(s: Store, uid: Uid, failAt: Option<nat>)
    requires var le, li, lt := |PendingIds(s.employees, uid)|, |PendingIds(s.invoices, uid)|, |PendingIds(s.transactions, uid)|;
             le + li + lt <= Passed(s, uid, failAt) < le + li + lt + |PendingIds(s.inventory, uid)|
    ensures PassOutcome(SyncPending(s, uid, failAt), s, uid, Passed(s, uid, failAt))
  {
    var E := TableWrites(s.employees, uid, EmployeeWrite);
    var I := TableWrites(s.invoices, uid, InvoiceWrite);
    var T := TableWrites(s.transactions, uid, TransactionWrite);
    var N := TableWrites(s.inventory, uid, InventoryWrite);
    var P := ProfileWrites(s.profile, uid);
    var le, li, lt := |E|, |I|, |T|;
    var w := Passed(s, uid, failAt);
    InventoryStops(s, uid, failAt);
    Cut4(E, I, T, N + P, w);
    TakeFront(N, P, w - le - li - lt);
    StoreAfterParts(s, uid, w);
    TableAfterSame(s.invoices, uid, Clip(w, le, li), li);
    TableAfterSame(s.transactions, uid, Clip(w, le + li, lt), lt);
  }

  /** The store once the four table loops went through. */
  function TablesSynced(s: Store, uid: Uid): Store {
    Store(TableAfter(s.employees, uid, |PendingIds(s.employees, uid)|),
          TableAfter(s.invoices, uid, |PendingIds(s.invoices, uid)|),
          TableAfter(s.transactions, uid, |PendingIds(s.transactions, uid)|),
          TableAfter(s.inventory, uid, |PendingIds(s.inventory, uid)|), s.profile)
  }

  /** When the first failure falls after the table writes, the four table
      loops go through and the pass continues with the last two. */
  lemma TablesGoThrough(s: Store, uid: Uid, failAt: Option<nat>)
    requires var le, li, lt := |PendingIds(s.employees, uid)|, |PendingIds(s.invoices, uid)|, |PendingIds(s.transactions, uid)|;
             le + li + lt + |PendingIds(s.inventory, uid)| <= Passed(s, uid, failAt)
    ensures var E := TableWrites(s.employees, uid, EmployeeWrite);
            var I := TableWrites(s.invoices, uid, InvoiceWrite);
            var T := TableWrites(s.transactions, uid, TransactionWrite);
            var N := TableWrites(s.inventory, uid, InventoryWrite);
            SyncPending(s, uid, failAt) == FinishPass(TablesSynced(s, uid), uid, E + I + T + N, failAt)
  {
    var E := TableWrites(s.employees, uid, EmployeeWrite);
    var I := TableWrites(s.invoices, uid, InvoiceWrite);
    var T := TableWrites(s.transactions, uid, TransactionWrite);
    var L := |Planned(s, uid)|;
    var w := Passed(s, uid, failAt);
    PhaseThrough(s.employees, uid, [], failAt, EmployeeWrite, w, L);
    TakeAll(E);
    PhaseThrough(s.invoices, uid, E, failAt, InvoiceWrite, w, L);
    PhaseThrough(s.transactions, uid, E + I, failAt, TransactionWrite, w, L);
    PhaseThrough(s.inventory, uid, E + I + T, failAt, InventoryWrite, w, L);
  }

  /** With every table's phase through, the status loop finds nothing
      pending and the pass ends with the profile. */
  lemma SyncReachesProfile(s: Store, uid: Uid, failAt: Option<nat>)
    requires var le, li, lt := |PendingIds(s.employees, uid)|, |PendingIds(s.invoices, uid)|, |PendingIds(s.transactions, uid)|;
             le + li + lt + |PendingIds(s.inventory, uid)| <= Passed(s, uid, failAt)
    ensures PassOutcome(SyncPending(s, uid, failAt), s, uid, Passed(s, uid, failAt))
  {
    var E := TableWrites(s.employees, uid, EmployeeWrite);
    var I := TableWrites(s.invoices, uid, InvoiceWrite);
    var T := TableWrites(s.transactions, uid, TransactionWrite);
    var N := TableWrites(s.inventory, uid, InventoryWrite);
    var P := ProfileWrites(s.profile, uid);
    var X := E + I + T + N;
    var L := |Planned(s, uid)|;
    var w := Passed(s, uid, failAt);
    var c := Done(failAt, |X|, |P|);
    var s4 := TablesSynced(s, uid);
    var st := s4.(profile := ProfileAfter(s.profile, uid, c > 0));
    var log := X + P[..c];
    assert L == |X| + |P| && c == w - |X| by {
      DoneWithin(failAt, |X|, |P|, L);
    }
    assert Planned(s, uid)[..w] == log by {
      Cut5(E, I, T, N, P, w);
    }
    assert StoreAfter(s, uid, w) == st by {
      StoreAfterParts(s, uid, w);
    }
    assert SyncPending(s, uid, failAt) == if c < |P| then PushFailed(st, log) else PushOk(|log|, st, log) by {
      TablesGoThrough(s, uid, failAt);
      NoneLeftPending(s.invoices, uid);
      FinishPassIs(s4, uid, X, failAt);
    }
  }

  /** The outcome of a pass is fixed by w, the number of planned writes that
      go through before the first failure: the log is the first w planned
      writes, the store has exactly their rows marked synced, and the pass
      completes, reporting the number of writes, iff no planned write
      failed. */
  lemma SyncPendingIs(s: Store, uid: Uid, failAt: Option<nat>)
    ensures PassOutcome(SyncPending(s, uid, failAt), s, uid, Passed(s, uid, failAt))
  {
    var le, li, lt, ln := |PendingIds(s.employees, uid)|, |PendingIds(s.invoices, uid)|,
                          |PendingIds(s.transactions, uid)|, |PendingIds(s.inventory, uid)|;
    var w := Passed(s, uid, failAt);
    if w < le {
      SyncFailsInEmployees(s, uid, failAt);
    } else if w < le + li {
      SyncFailsInInvoices(s, uid, failAt);
    } else if w < le + li + lt {
      SyncFailsInTransactions(s, uid, failAt);
    } else if w < le + li + lt + ln {
      SyncFailsInInventory(s, uid, failAt);
    } else {
      SyncReachesProfile(s, uid, failAt);
    }
  }

  /** The number of writes a pass over s plans: one per pending row of the
      owner's in the four tables, plus one for a pending profile. */
  function PendingCount(s: Store, uid: Uid): nat {
    |PendingIds(s.employees, uid)| + |PendingIds(s.invoices, uid)|
    + |PendingIds(s.transactions, uid)| + |PendingIds(s.inventory, uid)|
    + (if ProfilePending(s.profile, uid) then 1 else 0)
  }

  /** Nothing of the owner's is waiting to be pushed. */
  predicate AllSynced(s: Store, uid: Uid) {
    && (forall k :: k in s.employees ==> !PendingOf(s.employees[k], uid))
    && (forall k :: k in s.invoices ==> !PendingOf(s.invoices[k], uid))
    && (forall k :: k in s.transactions ==> !PendingOf(s.transactions[k], uid))
    && (forall k :: k in s.inventory ==> !PendingOf(s.inventory[k], uid))
    && !ProfilePending(s.profile, uid)
  }

  lemma NoPendingIds<D>(t: Table<D>, uid: Uid)
    ensures PendingIds(t, uid) == [] <==> forall k :: k in t ==> !PendingOf(t[k], uid)
  {
    PendingIdsSpec(t, uid);
    if PendingIds(t, uid) != [] {
      assert PendingIds(t, uid)[0] in PendingIds(t, uid);
    }
  }

  /** The pass completes iff every write it plans goes through. */
  lemma SyncOkIff(s: Store, uid: Uid, failAt: Option<nat>)
    ensures SyncPending(s, uid, failAt).PushOk? <==>
              forall n :: 0 <= n < |Planned(s, uid)| ==> Succeeds(failAt, n)
  {
    SyncPendingIs(s, uid, failAt);
  }

  /** A completed pass made exactly one write per pending row of the owner's
      and one for a pending profile, reported that number, and left nothing
      of the owner's pending. */
  lemma SyncOkClears(s: Store, uid: Uid, failAt: Option<nat>)
    requires SyncPending(s, uid, failAt).PushOk?
    ensures SyncPending(s, uid, failAt).count == PendingCount(s, uid)
    ensures SyncPending(s, uid, failAt).log == Planned(s, uid)
    ensures AllSynced(SyncPending(s, uid, failAt).store, uid)
  {
    var r := SyncPending(s, uid, failAt);
    var L := |Planned(s, uid)|;
    SyncPendingIs(s, uid, failAt);
    TakeAll(Planned(s, uid));
    StoreAfterParts(s, uid, L);
    NoneLeftPending(s.employees, uid);
    NoneLeftPending(s.invoices, uid);
    NoneLeftPending(s.transactions, uid);
    NoneLeftPending(s.inventory, uid);
    NoPendingIds(r.store.employees, uid);
    NoPendingIds(r.store.invoices, uid);
    NoPendingIds(r.store.transactions, uid);
    NoPendingIds(r.store.inventory, uid);
    ProfileAfterSpec(s.profile, uid, L > L - |ProfileWrites(s.profile, uid)|);
  }

  /** A store with nothing pending for the owner plans no writes. */
  lemma NothingPlanned(s: Store, uid: Uid)
    requires AllSynced(s, uid)
    ensures Planned(s, uid) == []
  {
    NoPendingIds(s.employees, uid);
    NoPendingIds(s.invoices, uid);
    NoPendingIds(s.transactions, uid);
    NoPendingIds(s.inventory, uid);
  }

  /** A pass over a store with nothing pending makes no write, changes nothing
      and completes, whatever the remote side does. */
  lemma SyncNothingPending(s: Store, uid: Uid, failAt: Option<nat>)
    requires AllSynced(s, uid)
    ensures SyncPending(s, uid, failAt) == PushOk(0, s, [])
  {
    NothingPlanned(s, uid);
    SyncPendingIs(s, uid, failAt);
    TableAfterNothing(s.employees, uid);
    TableAfterNothing(s.invoices, uid);
    TableAfterNothing(s.transactions, uid);
    TableAfterNothing(s.inventory, uid);
  }

  /** Running the pass again after it completed is a no-op. */
  lemma SyncIdempotent(s: Store, uid: Uid, failAt: Option<nat>, failAt2: Option<nat>)
    requires SyncPending(s, uid, failAt).PushOk?
    ensures var st := SyncPending(s, uid, failAt).store;
            SyncPending(st, uid, failAt2) == PushOk(0, st, [])
  {
    SyncOkClears(s, uid, failAt);
    SyncNothingPending(SyncPending(s, uid, failAt).store, uid, failAt2);
  }

  /** A rejected pass stopped at its first failing write: its log is the
      planned writes before that one, all of which went through. */
  lemma SyncFailedStops(s: Store, uid: Uid, failAt: Option<nat>)
    requires SyncPending(s, uid, failAt).PushFailed?
    ensures var n := |SyncPending(s, uid, failAt).log|;
            && n < |Planned(s, uid)|
            && SyncPending(s, uid, failAt).log == Planned(s, uid)[..n]
            && !Succeeds(failAt, n)
            && forall m :: 0 <= m < n ==> Succeeds(failAt, m)
  {
    SyncPendingIs(s, uid, failAt);
  }

  /** Whatever the number of writes that went through, only the owner's
      pending rows can have changed, and only in their status. */
  lemma StoreAfterKeepsOthers(s: Store, uid: Uid, w: nat)
    ensures var st := StoreAfter(s, uid, w);
            && OnlyMarks(s.employees, st.employees, uid)
            && OnlyMarks(s.invoices, st.invoices, uid)
            && OnlyMarks(s.transactions, st.transactions, uid)
            && OnlyMarks(s.inventory, st.inventory, uid)
  {
    var le, li, lt := |PendingIds(s.employees, uid)|, |PendingIds(s.invoices, uid)|, |PendingIds(s.transactions, uid)|;
    var st := StoreAfter(s, uid, w);
    TableAfterKeepsOthers(s.employees, uid, w);
    assert OnlyMarks(s.employees, st.employees, uid);
    TableAfterKeepsOthers(s.invoices, uid, Clip(w, le, li));
    assert OnlyMarks(s.invoices, st.invoices, uid);
    TableAfterKeepsOthers(s.transactions, uid, Clip(w, le + li, lt));
    assert OnlyMarks(s.transactions, st.transactions, uid);
    TableAfterKeepsOthers(s.inventory, uid, Clip(w, le + li + lt, |PendingIds(s.inventory, uid)|));
  }

  /** Only the owner's profile row can change, and only in its status. */
  lemma StoreAfterKeepsProfiles(s: Store, uid: Uid, w: nat)
    ensures var st := StoreAfter(s, uid, w);
            && st.profile.Keys == s.profile.Keys
            && (forall k :: k in s.profile && k != uid ==> st.profile[k] == s.profile[k])
            && (uid in s.profile ==> st.profile[uid].profile == s.profile[uid].profile)
  {
    var le, li, lt := |PendingIds(s.employees, uid)|, |PendingIds(s.invoices, uid)|, |PendingIds(s.transactions, uid)|;
    ProfileAfterSpec(s.profile, uid, w > le + li + lt + |PendingIds(s.inventory, uid)|);
  }

  /** Rows that are not the owner's pending ones are untouched by a pass,
      whatever its outcome, and no row's record changes: the pass only
      marks rows synced. */
  lemma SyncKeepsOthers(s: Store, uid: Uid, failAt: Option<nat>)
    ensures var st := SyncPending(s, uid, failAt).store;
            && OnlyMarks(s.employees, st.employees, uid)
            && OnlyMarks(s.invoices, st.invoices, uid)
            && OnlyMarks(s.transactions, st.transactions, uid)
            && OnlyMarks(s.inventory, st.inventory, uid)
            && st.profile.Keys == s.profile.Keys
            && (forall k :: k in s.profile && k != uid ==> st.profile[k] == s.profile[k])
            && (uid in s.profile ==> st.profile[uid].profile == s.profile[uid].profile)
  {
    var w := Passed(s, uid, failAt);
    SyncPendingIs(s, uid, failAt);
    assert SyncPending(s, uid, failAt).store == StoreAfter(s, uid, w);
    StoreAfterKeepsOthers(s, uid, w);
    StoreAfterKeepsProfiles(s, uid, w);
  }
}
