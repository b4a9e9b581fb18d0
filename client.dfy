/**
 * The client's reconciliation engine (the `App` object): the in-memory
 * transaction list, the local mutations that confirm against the server or
 * queue themselves as pending, and `syncData`, which replays the queue and
 * then adopts the server's list.
 *
 * Connectivity (`API.isOnline()`) is the parameter `online`; the outcome of
 * each remote call is a parameter too, and `syncData` returns the calls it
 * issues, in order.
 */
module Client {
  import opened Wrappers
  import opened Entities
  import opened Cache
  import Seqs
  import Views

  /**
   * The clock and random values one operation sees: `Date.now()` and
   * `Math.random().toString(36)` for the id, `new Date().toISOString()` for
   * `createdAt`/`updatedAt` (`iso`), and the separate `toISOString()` the
   * cache takes for a pending item's timestamp (`queuedAt`).
   */
  datatype Moment = Moment(millis: string, random36: string, iso: string, queuedAt: string)

  /** A remote call made during `syncData`. */
  datatype Call = AddCall(transaction: Transaction) | UpdateCall(id: string, transaction: Transaction) | DeleteCall(id: string) | FetchCall

  /** `item.originalId || item.transaction.id`: the id a replayed update or delete targets. */
  function Target(item: PendingItem): string {
    if item.originalId.Some? && item.originalId.value != "" then item.originalId.value else item.transaction.id
  }

  /** The call that replays one pending item. */
  function ReplayCall(item: PendingItem): Call {
    match item.action
    case Add => AddCall(item.transaction)
    case Update => UpdateCall(Target(item), item.transaction)
    case Delete => DeleteCall(Target(item))
  }

  /** The calls replaying `items`, built as the replay loop issues them. */
  function ReplayCalls(items: seq<PendingItem>): seq<Call>
    decreases |items|
  {
    if |items| == 0 then [] else ReplayCalls(items[..|items| - 1]) + [ReplayCall(items[|items| - 1])]
  }

  /** Replay issues one call per pending item, in queue order. */
  lemma {:induction false} ReplayCallsInOrder(items: seq<PendingItem>)
    ensures |ReplayCalls(items)| == |items|
    ensures forall k :: 0 <= k < |items| ==> ReplayCalls(items)[k] == ReplayCall(items[k])
    decreases |items|
  {
    if |items| > 0 {
      ReplayCallsInOrder(items[..|items| - 1]);
    }
  }

  /** Adds are sent as queued; updates and deletes go to `originalId`, or to the transaction's own id when that is empty. */
  lemma ReplayTargets(item: PendingItem)
    ensures item.action == Add ==> ReplayCall(item) == AddCall(item.transaction)
    ensures item.action == Update ==> ReplayCall(item).UpdateCall? && ReplayCall(item).transaction == item.transaction
    ensures item.action != Add ==>
      ReplayCall(item).id == if item.originalId == None || item.originalId == Some("") then item.transaction.id else item.originalId.value
  {
  }

  /** The `synced = true` a confirmed replay sets on the first local entry with `id`. */
  function MarkSynced(ts: seq<Transaction>, id: string): seq<Transaction> {
    var k := IndexOfId(ts, id);
    if k == -1 then ts else ts[k := ts[k].(synced := true)]
  }

  /** The list after the replay loop: a mark for each confirmed item, in queue order. */
  function MarkConfirmed(ts: seq<Transaction>, items: seq<PendingItem>, confirmed: seq<bool>): seq<Transaction>
    requires |items| == |confirmed|
    decreases |items|
  {
    if |items| == 0 then ts
    else
      var n := |items| - 1;
      var prev := MarkConfirmed(ts, items[..n], confirmed[..n]);
      if confirmed[n] then MarkSynced(prev, items[n].transaction.id) else prev
  }

  /** Some confirmed item carries the transaction id `id`. */
  predicate Confirms(items: seq<PendingItem>, confirmed: seq<bool>, id: string)
    requires |items| == |confirmed|
  {
    exists i :: 0 <= i < |items| && confirmed[i] && items[i].transaction.id == id
  }

  /** Same length, same ids, position by position. */
  predicate SameIds(a: seq<Transaction>, b: seq<Transaction>) {
    |a| == |b| && forall k :: 0 <= k < |a| ==> a[k].id == b[k].id
  }

  lemma {:induction false} IndexOfSameIds(a: seq<Transaction>, b: seq<Transaction>, id: string)
    requires SameIds(a, b)
    ensures IndexOfId(a, id) == IndexOfId(b, id)
    decreases |a|
  {
    if |a| > 0 {
      IndexOfSameIds(a[1..], b[1..], id);
    }
  }

  /**
   * The replay changes only `synced` flags, and an entry ends up synced iff it
   * was already, or it is the first entry with its id and a confirmed item
   * carries that id.
   */
  lemma {:induction false} MarkConfirmedSpec(ts: seq<Transaction>, items: seq<PendingItem>, confirmed: seq<bool>)
    requires |items| == |confirmed|
    ensures SameIds(MarkConfirmed(ts, items, confirmed), ts)
    ensures forall k :: 0 <= k < |ts| ==>
      MarkConfirmed(ts, items, confirmed)[k] == ts[k].(synced := MarkConfirmed(ts, items, confirmed)[k].synced)
    ensures forall k :: 0 <= k < |ts| ==>
      (MarkConfirmed(ts, items, confirmed)[k].synced <==>
         ts[k].synced || (k == IndexOfId(ts, ts[k].id) && Confirms(items, confirmed, ts[k].id)))
    decreases |items|
  {
    if |items| > 0 {
      var n := |items| - 1;
      MarkConfirmedSpec(ts, items[..n], confirmed[..n]);
      var prev := MarkConfirmed(ts, items[..n], confirmed[..n]);
      var r := MarkConfirmed(ts, items, confirmed);
      var id := items[n].transaction.id;
      forall k | 0 <= k < |ts|
        ensures Confirms(items, confirmed, ts[k].id) <==> Confirms(items[..n], confirmed[..n], ts[k].id) || (confirmed[n] && id == ts[k].id)
      {
        if Confirms(items, confirmed, ts[k].id) {
          var i :| 0 <= i < |items| && confirmed[i] && items[i].transaction.id == ts[k].id;
          if i < n {
            assert confirmed[..n][i] && items[..n][i].transaction.id == ts[k].id;
          }
        }
        if Confirms(items[..n], confirmed[..n], ts[k].id) {
          var i :| 0 <= i < n && confirmed[..n][i] && items[..n][i].transaction.id == ts[k].id;
          assert confirmed[i] && items[i].transaction.id == ts[k].id;
        }
      }
      if confirmed[n] {
        IndexOfSameIds(prev, ts, id);
      }
    }
  }

  /** The form is complete: a truthy amount, a category and a date (`addTransaction`'s check). */
  predicate FormComplete(form: Form) {
    Truthy(form.amount) && form.category != "" && form.date != ""
  }

  class App {
    var transactions: seq<Transaction>
    var filteredTransactions: seq<Transaction>
    const storage: Storage

    constructor (storage: Storage)
      ensures this.storage == storage && transactions == [] && filteredTransactions == []
    {
      this.storage := storage;
      transactions := [];
      filteredTransactions := [];
    }

    /**
     * `loadTransactions`: online, take the server's list (`data || []`) and
     * cache it; offline, or when the call reports offline, read the cache; a
     * failed call keeps the current list.
     */
    method LoadTransactions(online: bool, fetched: Remote<Option<seq<Transaction>>>)
      modifies this`transactions, storage`slots
      ensures !online || fetched.Offline? ==>
        transactions == ReadTransactions(storage.slots) && storage.slots == old(storage.slots)
      ensures online && fetched.Failed? ==>
        transactions == old(transactions) && storage.slots == old(storage.slots)
      ensures online && fetched.Done? ==>
        transactions == (if fetched.data.Some? then fetched.data.value else []) &&
        storage.slots == if storage.writable then old(storage.slots)[TransactionsKey := TransactionList(transactions)] else old(storage.slots)
    {
      if online {
        match fetched
        case Done(data) =>
          transactions := if data.Some? then data.value else [];
          var _ := storage.SaveTransactions(transactions);
        case Offline =>
          transactions := storage.GetTransactions();
        case Failed =>
      } else {
        transactions := storage.GetTransactions();
      }
    }

    /**
     * `addTransaction`: an incomplete form changes nothing. Otherwise a new
     * entry with an `offline_` id is created; if the server confirms it, it
     * takes the returned id (when truthy) and `synced = true`, else it is
     * queued as `add` and the sync flag is set. The entry is appended and the
     * list cached.
     */
    method AddTransaction(form: Form, online: bool, reply: Remote<Option<string>>, now: Moment)
      modifies this`transactions, storage`slots
      ensures !FormComplete(form) ==>
        transactions == old(transactions) && storage.slots == old(storage.slots)
      ensures FormComplete(form) ==>
        |transactions| == |old(transactions)| + 1 && transactions[..|old(transactions)|] == old(transactions)
      ensures FormComplete(form) ==>
        var e := transactions[|transactions| - 1];
        var confirmed := online && reply.Done?;
        && e.amount == form.amount && e.kind == form.kind && e.category == form.category
        && e.date == form.date && e.notes == form.notes
        && e.createdAt == now.iso && e.updatedAt == None
        && e.synced == confirmed
        && e.id == (if confirmed && reply.data.Some? && reply.data.value != "" then reply.data.value
                    else GenerateId(now.millis, now.random36))
        && (storage.writable ==>
              && ReadTransactions(storage.slots) == transactions
              && ReadPending(storage.slots) == old(ReadPending(storage.slots)) + (if confirmed then [] else [PendingItem(Add, e, None, now.queuedAt)])
              && ReadSyncFlag(storage.slots) == (!confirmed || old(ReadSyncFlag(storage.slots))))
      ensures !storage.writable ==> storage.slots == old(storage.slots)
    {
      if !FormComplete(form) {
        return;
      }
      var transaction := Transaction(GenerateId(now.millis, now.random36), form.amount, form.kind, form.category,
                                     form.date, form.notes, now.iso, None, false);
      if online {
        match reply
        case Done(data) =>
          transaction := transaction.(id := if data.Some? && data.value != "" then data.value else transaction.id, synced := true);
        case _ =>
          var _ := storage.AddPendingTransaction(now.queuedAt, Add, transaction);
          var _ := storage.SetSyncNeeded(true);
      } else {
        var _ := storage.AddPendingTransaction(now.queuedAt, Add, transaction);
        var _ := storage.SetSyncNeeded(true);
      }
      transactions := transactions + [transaction];
      var _ := storage.SaveTransactions(transactions);
    }

    /**
     * `updateTransaction`: an id not in the list changes nothing. Otherwise the
     * entry at that index gets the form's fields and a new `updatedAt`,
     * keeping its id, `createdAt` and (unless the server confirms) its
     * `synced` flag. A failed call, or being offline, queues an `update`
     * targeting `id`; a call that reports offline queues nothing.
     */
    method UpdateTransaction(id: string, form: Form, online: bool, reply: Remote<()>, now: Moment)
      modifies this`transactions, storage`slots
      ensures IndexOfId(old(transactions), id) == -1 ==>
        transactions == old(transactions) && storage.slots == old(storage.slots)
      ensures IndexOfId(old(transactions), id) != -1 ==> |transactions| == |old(transactions)|
      ensures IndexOfId(old(transactions), id) != -1 ==>
        var k := IndexOfId(old(transactions), id);
        var e := transactions[k];
        var queued := !online || reply.Failed?;
        && (forall j :: 0 <= j < |transactions| && j != k ==> transactions[j] == old(transactions)[j])
        && e.id == id && e.createdAt == old(transactions)[k].createdAt
        && e.amount == form.amount && e.kind == form.kind && e.category == form.category
        && e.date == form.date && e.notes == form.notes && e.updatedAt == Some(now.iso)
        && e.synced == ((online && reply.Done?) || old(transactions)[k].synced)
        && (storage.writable ==>
              && ReadTransactions(storage.slots) == transactions
              && ReadPending(storage.slots) == old(ReadPending(storage.slots)) + (if queued then [PendingItem(Update, e, Some(id), now.queuedAt)] else [])
              && ReadSyncFlag(storage.slots) == (queued || old(ReadSyncFlag(storage.slots))))
      ensures !storage.writable ==> storage.slots == old(storage.slots)
    {
      var k := IndexOfId(transactions, id);
      if k == -1 {
        return;
      }
      var updated := transactions[k].(amount := form.amount, kind := form.kind, category := form.category,
                                      date := form.date, notes := form.notes, updatedAt := Some(now.iso));
      if online {
        match reply
        case Done(_) =>
          updated := updated.(synced := true);
        case Failed =>
          var _ := storage.AddPendingTransaction(now.queuedAt, Update, updated, Some(id));
          var _ := storage.SetSyncNeeded(true);
        case Offline =>
      } else {
        var _ := storage.AddPendingTransaction(now.queuedAt, Update, updated, Some(id));
        var _ := storage.SetSyncNeeded(true);
      }
      transactions := transactions[k := updated];
      var _ := storage.SaveTransactions(transactions);
    }

    /**
     * `deleteTransaction`: nothing happens unless the user confirms. A failed
     * call, or being offline, queues a `delete` of the entry (if present)
     * targeting `id`; then every entry with that id is dropped from the list
     * and the list cached.
     */
    method DeleteTransaction(id: string, userConfirms: bool, online: bool, reply: Remote<()>, now: Moment)
      modifies this`transactions, storage`slots
      ensures !userConfirms ==> transactions == old(transactions) && storage.slots == old(storage.slots)
      ensures userConfirms ==> transactions == WithoutId(old(transactions), id)
      ensures userConfirms && storage.writable ==>
        var k := IndexOfId(old(transactions), id);
        var queued := (!online || reply.Failed?) && k != -1;
        && ReadTransactions(storage.slots) == transactions
        && ReadPending(storage.slots) == old(ReadPending(storage.slots)) +
             (if queued then [PendingItem(Delete, old(transactions)[k], Some(id), now.queuedAt)] else [])
        && ReadSyncFlag(storage.slots) == (queued || old(ReadSyncFlag(storage.slots)))
      ensures !storage.writable ==> storage.slots == old(storage.slots)
    {
      if !userConfirms {
        return;
      }
      if online {
        if reply.Failed? {
          var k := IndexOfId(transactions, id);
          if k != -1 {
            var _ := storage.AddPendingTransaction(now.queuedAt, Delete, transactions[k], Some(id));
            var _ := storage.SetSyncNeeded(true);
          }
        }
      } else {
        var k := IndexOfId(transactions, id);
        if k != -1 {
          var _ := storage.AddPendingTransaction(now.queuedAt, Delete, transactions[k], Some(id));
          var _ := storage.SetSyncNeeded(true);
        }
      }
      transactions := WithoutId(transactions, id);
      var _ := storage.SaveTransactions(transactions);
    }

    /**
     * `syncData`, one sequential run. Offline it does nothing. With an empty
     * queue it clears the sync flag and calls nothing. Otherwise it replays
     * every queued item in order (`confirmed[i]` is whether the i-th call
     * succeeded), marking confirmed entries synced, then fetches the server
     * list; only a fetch that returns data replaces the list and clears the
     * queue and the flag, whatever the replays did.
     */
    method SyncData(online: bool, confirmed: seq<bool>, fetched: Remote<Option<seq<Transaction>>>) returns (calls: seq<Call>)
      requires |confirmed| == |ReadPending(storage.slots)|
      modifies this`transactions, storage`slots
      ensures !online ==> calls == [] && transactions == old(transactions) && storage.slots == old(storage.slots)
      ensures online && old(ReadPending(storage.slots)) == [] ==>
        && calls == [] && transactions == old(transactions)
        && storage.slots == if storage.writable then old(storage.slots)[SyncKey := Text("false")] else old(storage.slots)
      ensures online && old(ReadPending(storage.slots)) != [] ==>
        calls == ReplayCalls(old(ReadPending(storage.slots))) + [FetchCall]
      ensures online && old(ReadPending(storage.slots)) != [] && fetched.Done? && fetched.data.Some? ==>
        && transactions == fetched.data.value
        && (storage.writable ==>
              && ReadTransactions(storage.slots) == fetched.data.value
              && ReadPending(storage.slots) == []
              && !ReadSyncFlag(storage.slots))
      ensures online && old(ReadPending(storage.slots)) != [] && !(fetched.Done? && fetched.data.Some?) ==>
        && transactions == MarkConfirmed(old(transactions), old(ReadPending(storage.slots)), confirmed)
        && storage.slots == old(storage.slots)
      ensures !storage.writable ==> storage.slots == old(storage.slots)
    {
      calls := [];
      if !online {
        return;
      }
      var pending := storage.GetPendingTransactions();
      if |pending| == 0 {
        var _ := storage.SetSyncNeeded(false);
        return;
      }
      for i := 0 to |pending|
        invariant calls == ReplayCalls(pending[..i])
        invariant transactions == MarkConfirmed(old(transactions), pending[..i], confirmed[..i])
        invariant storage.slots == old(storage.slots)
      {
        assert pending[..i + 1][..i] == pending[..i];
        assert confirmed[..i + 1][..i] == confirmed[..i];
        calls := calls + [ReplayCall(pending[i])];
        if confirmed[i] {
          var k := IndexOfId(transactions, pending[i].transaction.id);
          if k != -1 {
            transactions := transactions[k := transactions[k].(synced := true)];
          }
        }
      }
      assert pending[..|pending|] == pending;
      assert confirmed[..|pending|] == confirmed;
      calls := calls + [FetchCall];
      if fetched.Done? && fetched.data.Some? {
        transactions := fetched.data.value;
        var _ := storage.SaveTransactions(transactions);
        var _ := storage.ClearPendingTransactions();
        var _ := storage.SetSyncNeeded(false);
      }
    }

    /** `applyFilters`: store the filtered, newest-first view. */
    method ApplyFilters(f: Views.Filters)
      modifies this`filteredTransactions
      ensures filteredTransactions == Views.ApplyFilters(transactions, f)
    {
      filteredTransactions := Views.ApplyFilters(transactions, f);
    }
  }

  /** `transactions.filter(t => t.id !== id)` */
  function WithoutId(ts: seq<Transaction>, id: string): seq<Transaction> {
    Seqs.Where(ts, (t: Transaction) => t.id != id)
  }

  /**
   * After a delete no entry has the id, every other entry stays as often as
   * before, and the survivors keep their relative order.
   */
  lemma WithoutIdSpec(ts: seq<Transaction>, id: string)
    ensures forall k :: 0 <= k < |WithoutId(ts, id)| ==> WithoutId(ts, id)[k].id != id
    ensures forall t :: multiset(WithoutId(ts, id))[t] == if t.id == id then 0 else multiset(ts)[t]
    ensures forall a, b :: a + b == ts ==> WithoutId(ts, id) == WithoutId(a, id) + WithoutId(b, id)
    ensures IndexOfId(ts, id) == -1 ==> WithoutId(ts, id) == ts
  {
    Seqs.WhereMultiset(ts, (t: Transaction) => t.id != id);
    forall a, b | a + b == ts ensures WithoutId(ts, id) == WithoutId(a, id) + WithoutId(b, id) {
      Seqs.WhereConcat(a, b, (t: Transaction) => t.id != id);
    }
    if IndexOfId(ts, id) == -1 {
      Seqs.WhereAll(ts, (t: Transaction) => t.id != id);
    }
  }
}
