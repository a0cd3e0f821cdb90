/** Transaction records and the pure part of their persistence: the record
    `saveTransaction` writes (insert or merge by id), the replace-or-append
    rewrite of the browser-storage mirror, the status split `loadTransactions`
    makes of the store, and the records a sync writes back. The controller
    class applies these to its store and mirror fields. */
module Transactions {
  import opened Wrappers
  import opened KeyOrder
  import opened Connectivity

  datatype TxStatus = Pending | Synced | Completed

  /** One payment record. Times are epoch milliseconds; `trace` is the
      free-text audit log, absent on a record that never had one. */
  datatype Tx = Tx(
    id: string,
    amount: real,
    timestamp: int,
    status: TxStatus,
    syncedAt: Option<int>,
    completedAt: Option<int>,
    trace: Option<string>)

  /** The IndexedDB object store, keyed by `id`. */
  type Store = map<string, Tx>

  /** The amount charged when the caller gives none (or zero). */
  const DEFAULT_AMOUNT: real := 100.0

  /** The store's key path is `id`: each record sits under its own id. */
  ghost predicate KeyedById(store: Store) {
    forall k :: k in store ==> store[k].id == k
  }

  /** The record-level invariant: a completion time exactly on completed
      records, and no sync time on a pending one. */
  predicate WellFormed(t: Tx) {
    (t.completedAt.Some? <==> t.status == Completed) && (t.status == Pending ==> t.syncedAt.None?)
  }

  ghost predicate StoreWellFormed(store: Store) {
    forall k :: k in store ==> WellFormed(store[k])
  }

  predicate HasId(txs: seq<Tx>, id: string) {
    exists i :: 0 <= i < |txs| && txs[i].id == id
  }

  /** The log text of a record, `trace || ''`. */
  function TraceText(trace: Option<string>): string {
    trace.GetOr("")
  }

  // ---------------------------------------------------------------------------
  // Creation (handleTransactionSuccess)
  // ---------------------------------------------------------------------------

  /** The record a successful PIN check creates. `amount` is the component's
      optional amount property; `amount || 100` also replaces zero. */
  function NewTransaction(id: string, amount: Option<real>, now: int, network: NetworkStatus, iso: string): (t: Tx)
    ensures t.id == id && t.timestamp == now && WellFormed(t)
    ensures t.status == Completed <==> network == Online
    ensures t.status == Pending <==> network != Online
    ensures t.completedAt.Some? <==> network == Online
    ensures t.syncedAt.Some? <==> network == Online
    ensures network == Online ==> t.completedAt == t.syncedAt == Some(now)
    ensures t.amount == if amount == None || amount == Some(0.0) then DEFAULT_AMOUNT else amount.value
  {
    var online := network == Online;
    Tx(id,
       if amount.Some? && amount.value != 0.0 then amount.value else DEFAULT_AMOUNT,
       now,
       if online then Completed else Pending,
       if online then Some(now) else None,
       if online then Some(now) else None,
       Some("Transaction created at " + iso))
  }

  // ---------------------------------------------------------------------------
  // saveTransaction: insert or merge by id
  // ---------------------------------------------------------------------------

  /** The record `saveTransaction` puts for `t`. A new id is stored with its
      trace replaced by a "saved" line. An existing id is merged: the incoming
      record carries every field (absent ones as explicit `undefined`), so
      each field takes the incoming value, except the trace, which is the old
      trace followed by an "Updated" line. */
  function SavedRecord(store: Store, t: Tx, iso: string): (r: Tx)
    ensures r.(trace := t.trace) == t && r.trace.Some?
    ensures t.id in store ==> TraceText(store[t.id].trace) <= r.trace.value
    ensures WellFormed(t) ==> WellFormed(r)
  {
    if t.id in store then t.(trace := Some(TraceText(store[t.id].trace) + "\nUpdated at " + iso))
    else t.(trace := Some("Transaction saved at " + iso))
  }

  /** What `saveTransaction(t)` does to the store, putting `SavedRecord` under
      `t.id`: one key at most is added, every other record stays, the stored
      record is `t` up to its trace, an existing trace is only extended, and
      both store invariants are kept. */
  lemma SaveEffect(store: Store, t: Tx, iso: string)
    requires KeyedById(store)
    ensures var r := store[t.id := SavedRecord(store, t, iso)];
            && KeyedById(r) && r.Keys == store.Keys + {t.id}
            && (forall k :: k in r && r[k].id == t.id ==> k == t.id)
            && (forall k :: k in store && k != t.id ==> r[k] == store[k])
            && r[t.id].(trace := t.trace) == t
            && (t.id in store ==> TraceText(store[t.id].trace) <= TraceText(r[t.id].trace))
            && (WellFormed(t) && StoreWellFormed(store) ==> StoreWellFormed(r))
  {
  }

  /** Saving the same record again neither adds an entry nor changes any
      field other than the trace. */
  lemma SaveAgainKeepsRecord(store: Store, t: Tx, iso1: string, iso2: string)
    ensures var once := store[t.id := SavedRecord(store, t, iso1)];
            var twice := once[t.id := SavedRecord(once, t, iso2)];
            twice.Keys == once.Keys && twice[t.id].(trace := None) == once[t.id].(trace := None)
            && TraceText(once[t.id].trace) <= TraceText(twice[t.id].trace)
  {
  }

  // ---------------------------------------------------------------------------
  // updateLocalStorage: the mirror list
  // ---------------------------------------------------------------------------

  /** `findIndex(tx => tx.id === id)`: the first position holding `id`, or -1. */
  function FindIndex(txs: seq<Tx>, id: string): (i: int)
    ensures -1 <= i < |txs|
    ensures i >= 0 ==> txs[i].id == id && forall j :: 0 <= j < i ==> txs[j].id != id
    ensures i == -1 <==> !HasId(txs, id)
  {
    if txs == [] then -1
    else if txs[0].id == id then 0
    else
      var i := FindIndex(txs[1..], id);
      if i < 0 then -1 else i + 1
  }

  /** `find(tx => tx.id === id)`: the first record holding `id`. */
  function FindById(txs: seq<Tx>, id: string): (r: Option<Tx>)
    ensures r.Some? <==> HasId(txs, id)
    ensures r.Some? ==> r.value.id == id && r.value == txs[FindIndex(txs, id)]
  {
    var i := FindIndex(txs, id);
    if i < 0 then None else Some(txs[i])
  }

  /** The mirror after `updateLocalStorage(t)`: the first entry with the same
      id is replaced in place, otherwise `t` is appended. */
  function MirrorUpdate(mirror: seq<Tx>, t: Tx): (r: seq<Tx>)
    ensures HasId(mirror, t.id) ==> |r| == |mirror|
    ensures !HasId(mirror, t.id) ==> r == mirror + [t]
    ensures forall j :: 0 <= j < |mirror| && j != FindIndex(mirror, t.id) ==> r[j] == mirror[j]
    ensures FindById(r, t.id) == Some(t)
  {
    var i := FindIndex(mirror, t.id);
    var r := if i >= 0 then mirror[i := t] else mirror + [t];
    assert r[if i >= 0 then i else |mirror|] == t;
    r
  }

  /** Writing the same record to the mirror twice leaves it as after once. */
  lemma MirrorUpdateIdempotent(mirror: seq<Tx>, t: Tx)
    ensures MirrorUpdate(MirrorUpdate(mirror, t), t) == MirrorUpdate(mirror, t)
  {
    var once := MirrorUpdate(mirror, t);
    assert HasId(once, t.id);
  }

  // ---------------------------------------------------------------------------
  // loadTransactions: the status split of the store
  // ---------------------------------------------------------------------------

  /** Records whose ids are strictly ascending (hence pairwise different). */
  predicate IdsAscending(txs: seq<Tx>) {
    forall i, j :: 0 <= i < j < |txs| ==> Below(txs[i].id, txs[j].id)
  }

  /** `getAll()`: every record of the store, in ascending key order. */
  function GetAll(store: Store): (r: seq<Tx>)
    requires KeyedById(store)
    ensures IdsAscending(r) && |r| == |store|
    ensures forall i :: 0 <= i < |r| ==> r[i].id in store && store[r[i].id] == r[i]
    ensures forall k :: k in store ==> store[k] in r
  {
    var keys := SortedKeys(store.Keys);
    var r := seq(|keys|, i requires 0 <= i < |keys| => store[keys[i]]);
    assert |store.Keys| == |store|;
    assert forall i :: 0 <= i < |r| ==> r[i].id == keys[i];
    forall k | k in store
      ensures store[k] in r
    {
      var i :| 0 <= i < |keys| && keys[i] == k;
      assert r[i] == store[k];
    }
    r
  }

  /** `filter(tx => tx.status === status)`, keeping the order. */
  function FilterStatus(txs: seq<Tx>, status: TxStatus): (r: seq<Tx>)
    ensures forall t :: t in r <==> t in txs && t.status == status
    ensures |r| <= |txs|
  {
    if txs == [] then []
    else
      var rest := FilterStatus(txs[1..], status);
      if txs[0].status == status then [txs[0]] + rest else rest
  }

  /** Filtering keeps the ascending id order of `getAll`. */
  lemma {:induction false} FilterKeepsAscending(txs: seq<Tx>, status: TxStatus)
    requires IdsAscending(txs)
    ensures IdsAscending(FilterStatus(txs, status))
  {
    if txs != [] {
      var tail := txs[1..];
      assert IdsAscending(tail) by {
        forall i, j | 0 <= i < j < |tail|
          ensures Below(tail[i].id, tail[j].id)
        {
          assert tail[i] == txs[i + 1] && tail[j] == txs[j + 1];
        }
      }
      FilterKeepsAscending(tail, status);
      var rest := FilterStatus(tail, status);
      if txs[0].status == status {
        var r := [txs[0]] + rest;
        forall i, j | 0 <= i < j < |r|
          ensures Below(r[i].id, r[j].id)
        {
          if i == 0 {
            assert r[j] == rest[j - 1] && rest[j - 1] in rest;
            var k :| 0 <= k < |tail| && tail[k] == r[j];
            assert txs[k + 1] == r[j];
          } else {
            assert r[i] == rest[i - 1] && r[j] == rest[j - 1];
          }
        }
      }
    }
  }

  function PendingOf(store: Store): seq<Tx>
    requires KeyedById(store)
  {
    FilterStatus(GetAll(store), Pending)
  }

  /** The completed list `loadTransactions` shows. */
  function CompletedOf(store: Store): seq<Tx>
    requires KeyedById(store)
  {
    FilterStatus(GetAll(store), Completed)
  }

  /** The two lists hold every pending, respectively completed, record of the
      store once each, in ascending id order; a `synced` record is in
      neither. */
  lemma LoadSplitsByStatus(store: Store)
    requires KeyedById(store)
    ensures IdsAscending(PendingOf(store)) && IdsAscending(CompletedOf(store))
    ensures forall k :: k in store && store[k].status == Pending <==> k in store && store[k] in PendingOf(store)
    ensures forall k :: k in store && store[k].status == Completed <==> k in store && store[k] in CompletedOf(store)
    ensures forall t :: t in PendingOf(store) ==> t.id in store && store[t.id] == t && t.status == Pending
    ensures forall t :: t in CompletedOf(store) ==> t.id in store && store[t.id] == t && t.status == Completed
  {
    FilterKeepsAscending(GetAll(store), Pending);
    FilterKeepsAscending(GetAll(store), Completed);
  }

  // ---------------------------------------------------------------------------
  // syncPendingTransactions
  // ---------------------------------------------------------------------------

  /** A pending record as the sync writes it back: completed, both times set
      to the sync instant, a "Synced" line appended to its trace. */
  function SyncedRecord(t: Tx, now: int, iso: string): (r: Tx)
    ensures r.status == Completed && r.syncedAt == Some(now) && r.completedAt == Some(now) && WellFormed(r)
    ensures r.(status := t.status, syncedAt := t.syncedAt, completedAt := t.completedAt, trace := t.trace) == t
    ensures r.trace.Some? && TraceText(t.trace) <= r.trace.value
  {
    t.(status := Completed, syncedAt := Some(now), completedAt := Some(now),
       trace := Some(TraceText(t.trace) + "\nSynced at " + iso))
  }

  /** The batch the sync writes, in the order of the pending list. */
  function SyncedBatch(batch: seq<Tx>, now: int, iso: string): (r: seq<Tx>)
    ensures |r| == |batch|
    ensures forall i :: 0 <= i < |r| ==> r[i] == SyncedRecord(batch[i], now, iso)
    ensures forall t :: t in r ==> t.status == Completed && WellFormed(t)
  {
    seq(|batch|, i requires 0 <= i < |batch| => SyncedRecord(batch[i], now, iso))
  }

  /** The status filter keeps a list whose records all have that status. */
  lemma {:induction false} FilterKeepsMatchingList(txs: seq<Tx>, status: TxStatus)
    requires forall t :: t in txs ==> t.status == status
    ensures FilterStatus(txs, status) == txs
  {
    if txs != [] {
      assert txs[0].status == status by { assert txs[0] in txs; }
      FilterKeepsMatchingList(txs[1..], status);
      calc {
        FilterStatus(txs, status);
        [txs[0]] + FilterStatus(txs[1..], status);
        [txs[0]] + txs[1..];
        txs;
      }
    }
  }

  /** The store after `put` of each record of `txs` in turn, each replacing
      whatever the store held under its id. */
  function PutAll(store: Store, txs: seq<Tx>): Store
    decreases |txs|
  {
    if txs == [] then store else PutAll(store[txs[0].id := txs[0]], txs[1..])
  }

  /** One more `put` at the end of the loop. */
  lemma {:induction false} PutAllSnoc(store: Store, txs: seq<Tx>, t: Tx)
    ensures PutAll(store, txs + [t]) == PutAll(store, txs)[t.id := t]
    decreases |txs|
  {
    if txs == [] {
      assert [t][1..] == [];
    } else {
      assert (txs + [t])[1..] == txs[1..] + [t];
      PutAllSnoc(store[txs[0].id := txs[0]], txs[1..], t);
    }
  }

  /** The put loop adds exactly the ids written. */
  lemma {:induction false} PutAllKeys(store: Store, txs: seq<Tx>)
    ensures forall k :: k in PutAll(store, txs) <==> k in store || HasId(txs, k)
    decreases |txs|
  {
    if txs != [] {
      PutAllKeys(store[txs[0].id := txs[0]], txs[1..]);
      forall k | HasId(txs, k) && k != txs[0].id
        ensures HasId(txs[1..], k)
      {
        var j :| 0 <= j < |txs| && txs[j].id == k;
        assert txs[1..][j - 1].id == k;
      }
      forall k | HasId(txs[1..], k)
        ensures HasId(txs, k)
      {
        var j :| 0 <= j < |txs[1..]| && txs[1..][j].id == k;
        assert txs[j + 1].id == k;
      }
    }
  }

  /** The put loop leaves every record whose id it does not write. */
  lemma {:induction false} PutAllUntouched(store: Store, txs: seq<Tx>, k: string)
    requires k in store && !HasId(txs, k)
    ensures k in PutAll(store, txs) && PutAll(store, txs)[k] == store[k]
    decreases |txs|
  {
    if txs != [] {
      assert txs[0].id != k;
      PutAllUntouched(store[txs[0].id := txs[0]], txs[1..], k);
    }
  }

  /** With pairwise different ids, each written id ends up holding its
      record. */
  lemma {:induction false} PutAllWritten(store: Store, txs: seq<Tx>, i: nat)
    requires IdsAscending(txs) && i < |txs|
    ensures txs[i].id in PutAll(store, txs) && PutAll(store, txs)[txs[i].id] == txs[i]
    decreases |txs|
  {
    var next := store[txs[0].id := txs[0]];
    if i == 0 {
      assert !HasId(txs[1..], txs[0].id) by {
        if HasId(txs[1..], txs[0].id) {
          var j :| 0 <= j < |txs[1..]| && txs[1..][j].id == txs[0].id;
          AscendingDistinct(txs[0].id, txs[j + 1].id);
        }
      }
      PutAllUntouched(next, txs[1..], txs[0].id);
    } else {
      assert txs[1..][i - 1] == txs[i];
      PutAllWritten(next, txs[1..], i - 1);
    }
  }

  /** The mirror after the sync: each entry whose id is in the batch becomes
      the first batch record with that id; the others stay. */
  function SyncMirror(mirror: seq<Tx>, updated: seq<Tx>): (r: seq<Tx>)
    ensures |r| == |mirror|
    ensures forall i :: 0 <= i < |r| && !HasId(updated, mirror[i].id) ==> r[i] == mirror[i]
    ensures forall i :: 0 <= i < |r| && HasId(updated, mirror[i].id) ==> r[i] in updated && r[i].id == mirror[i].id
  {
    seq(|mirror|, i requires 0 <= i < |mirror| => FindById(updated, mirror[i].id).GetOr(mirror[i]))
  }

  /** Status order: a record never goes back to an earlier status. */
  function Rank(s: TxStatus): nat {
    match s
    case Pending => 0
    case Synced => 1
    case Completed => 2
  }

  /** The store after a sync of the pending list loaded from it. */
  function SyncStore(store: Store, now: int, iso: string): Store
    requires KeyedById(store)
  {
    PutAll(store, SyncedBatch(PendingOf(store), now, iso))
  }

  /** The ids a sync writes are exactly the pending records of the store. */
  lemma SyncBatchIds(store: Store, now: int, iso: string)
    requires KeyedById(store)
    ensures IdsAscending(SyncedBatch(PendingOf(store), now, iso))
    ensures forall k :: HasId(SyncedBatch(PendingOf(store), now, iso), k) <==> k in store && store[k].status == Pending
  {
    var batch := PendingOf(store);
    var updated := SyncedBatch(batch, now, iso);
    LoadSplitsByStatus(store);
    forall k | HasId(updated, k)
      ensures k in store && store[k].status == Pending
    {
      var i :| 0 <= i < |updated| && updated[i].id == k;
      assert batch[i] in batch;
    }
    forall k | k in store && store[k].status == Pending
      ensures HasId(updated, k)
    {
      var i :| 0 <= i < |batch| && batch[i] == store[k];
      assert updated[i].id == k;
    }
  }

  lemma SyncStoreKeys(store: Store, now: int, iso: string)
    requires KeyedById(store)
    ensures SyncStore(store, now, iso).Keys == store.Keys
  {
    SyncBatchIds(store, now, iso);
    PutAllKeys(store, SyncedBatch(PendingOf(store), now, iso));
  }

  lemma SyncStoreCompletes(store: Store, now: int, iso: string, k: string)
    requires KeyedById(store) && k in store && store[k].status == Pending
    ensures k in SyncStore(store, now, iso) && SyncStore(store, now, iso)[k] == SyncedRecord(store[k], now, iso)
  {
    var batch := PendingOf(store);
    SyncBatchIds(store, now, iso);
    LoadSplitsByStatus(store);
    var i :| 0 <= i < |batch| && batch[i] == store[k];
    PutAllWritten(store, SyncedBatch(batch, now, iso), i);
  }

  lemma SyncStoreUntouched(store: Store, now: int, iso: string, k: string)
    requires KeyedById(store) && k in store && store[k].status != Pending
    ensures k in SyncStore(store, now, iso) && SyncStore(store, now, iso)[k] == store[k]
  {
    SyncBatchIds(store, now, iso);
    PutAllUntouched(store, SyncedBatch(PendingOf(store), now, iso), k);
  }

  /** A sync of the pending list loaded from the store leaves no pending
      record in the store: each one is now completed with both times set to
      the sync instant, every other record is untouched, no record is added
      or removed, and no status moves backwards. */
  lemma SyncCompletesPendingRecords(store: Store, now: int, iso: string)
    requires KeyedById(store)
    ensures SyncStore(store, now, iso).Keys == store.Keys
    ensures forall k :: k in store && store[k].status == Pending ==>
              SyncStore(store, now, iso)[k] == SyncedRecord(store[k], now, iso)
    ensures forall k :: k in store && store[k].status != Pending ==> SyncStore(store, now, iso)[k] == store[k]
    ensures forall k :: k in store ==>
              SyncStore(store, now, iso)[k].status != Pending
              && Rank(store[k].status) <= Rank(SyncStore(store, now, iso)[k].status)
    ensures KeyedById(SyncStore(store, now, iso))
    ensures StoreWellFormed(store) ==> StoreWellFormed(SyncStore(store, now, iso))
  {
    var after := SyncStore(store, now, iso);
    SyncStoreKeys(store, now, iso);
    forall k | k in store
      ensures if store[k].status == Pending then after[k] == SyncedRecord(store[k], now, iso) else after[k] == store[k]
      ensures after[k].id == k && after[k].status != Pending && Rank(store[k].status) <= Rank(after[k].status)
      ensures WellFormed(store[k]) ==> WellFormed(after[k])
    {
      if store[k].status == Pending {
        SyncStoreCompletes(store, now, iso, k);
      } else {
        SyncStoreUntouched(store, now, iso, k);
      }
    }
    assert forall k :: k in after ==> k in store;
  }

  /** A payment made while not online is saved as pending, shows in the
      pending list, and the next sync turns it into a completed record with
      both times set and its amount kept. */
  lemma OfflinePaymentCompletesOnSync(
    store: Store, id: string, amount: Option<real>, created: int, network: NetworkStatus, iso1: string,
    syncTime: int, iso2: string)
    requires KeyedById(store) && id !in store && network != Online
    ensures var t := NewTransaction(id, amount, created, network, iso1);
            var saved := store[id := SavedRecord(store, t, iso1)];
            && saved[id].status == Pending && saved[id] in PendingOf(saved)
            && var synced := SyncStore(saved, syncTime, iso2);
               && id in synced && synced[id].status == Completed
               && synced[id].syncedAt == Some(syncTime) && synced[id].completedAt == Some(syncTime)
               && synced[id].amount == t.amount && synced[id].timestamp == created
  {
    var t := NewTransaction(id, amount, created, network, iso1);
    var saved := store[id := SavedRecord(store, t, iso1)];
    SaveEffect(store, t, iso1);
    LoadSplitsByStatus(saved);
    SyncCompletesPendingRecords(saved, syncTime, iso2);
  }

  /** A pending record just saved is in the pending list of the new store,
      and the sync of that store completes it. */
  lemma SavedPendingIsSynced(store: Store, t: Tx, iso: string, now: int, syncIso: string)
    requires KeyedById(store) && WellFormed(t) && t.status == Pending
    ensures var saved := store[t.id := SavedRecord(store, t, iso)];
            && KeyedById(saved) && saved[t.id] in PendingOf(saved)
            && t.id in SyncStore(saved, now, syncIso)
            && SyncStore(saved, now, syncIso)[t.id] == SyncedRecord(saved[t.id], now, syncIso)
  {
    var saved := store[t.id := SavedRecord(store, t, iso)];
    SaveEffect(store, t, iso);
    LoadSplitsByStatus(saved);
    SyncStoreCompletes(saved, now, syncIso, t.id);
  }
}
