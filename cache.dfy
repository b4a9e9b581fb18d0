/**
 * The browser-side cache: three localStorage slots holding the transaction
 * list, the queue of pending mutations and the "sync needed" flag.
 * localStorage itself is the map `slots` from key to the parsed value stored
 * under it; `writable` is false when the browser refuses writes (the calls
 * that would throw), in which case every writer reports `false` and leaves
 * the slots as they were.
 */
module Cache {
  import opened Wrappers
  import opened Entities

  const TransactionsKey := "financni_rozpocar_transactions"
  const PendingKey := "financni_rozpocar_pending"
  const SyncKey := "financni_rozpocar_sync_flag"

  /** A slot's value after `JSON.parse`: a transaction list, a pending queue, or plain text. */
  datatype Stored = TransactionList(txs: seq<Transaction>) | PendingList(items: seq<PendingItem>) | Text(text: string)

  /** What `getTransactions` yields for these slots: the stored list, else `[]`. */
  function ReadTransactions(slots: map<string, Stored>): seq<Transaction> {
    if TransactionsKey in slots && slots[TransactionsKey].TransactionList? then slots[TransactionsKey].txs else []
  }

  /** What `getPendingTransactions` yields for these slots: the stored queue, else `[]`. */
  function ReadPending(slots: map<string, Stored>): seq<PendingItem> {
    if PendingKey in slots && slots[PendingKey].PendingList? then slots[PendingKey].items else []
  }

  /** What `isSyncNeeded` yields: whether the flag slot holds the text 'true'. */
  predicate ReadSyncFlag(slots: map<string, Stored>) {
    SyncKey in slots && slots[SyncKey] == Text("true")
  }

  /** Every key other than the three slots of this module is as before. */
  predicate OthersUnchanged(before: map<string, Stored>, after: map<string, Stored>) {
    before - {TransactionsKey, PendingKey, SyncKey} == after - {TransactionsKey, PendingKey, SyncKey}
  }

  /**
   * `generateId`: 'offline_' + Date.now() + '_' + Math.random().toString(36).substr(2, 9),
   * given the decimal text of the clock and the base-36 text of the random number.
   */
  function GenerateId(millis: string, random36: string): (id: string)
    ensures "offline_" <= id
    ensures |"offline_"| + |millis| + 1 <= |id| <= |"offline_"| + |millis| + 1 + 9
    ensures id[|"offline_"|..|"offline_"| + |millis|] == millis
    ensures id[|"offline_"| + |millis|] == '_'
  {
    var n := |random36|;
    "offline_" + millis + "_" + random36[(if n < 2 then n else 2)..(if n < 11 then n else 11)]
  }

  class Storage {
    var slots: map<string, Stored>
    var writable: bool

    constructor (slots: map<string, Stored>, writable: bool)
      ensures this.slots == slots && this.writable == writable
    {
      this.slots := slots;
      this.writable := writable;
    }

    /** `saveTransactions(txs)`: store the list; `true` on success. */
    method SaveTransactions(txs: seq<Transaction>) returns (ok: bool)
      modifies this`slots
      ensures ok == writable
      ensures slots == if ok then old(slots)[TransactionsKey := TransactionList(txs)] else old(slots)
      ensures ok ==> ReadTransactions(slots) == txs
      ensures ReadPending(slots) == old(ReadPending(slots)) && ReadSyncFlag(slots) == old(ReadSyncFlag(slots))
    {
      if writable {
        slots := slots[TransactionsKey := TransactionList(txs)];
        ok := true;
      } else {
        ok := false;
      }
    }

    /** `getTransactions()`: the stored list, `[]` when nothing (or no list) is stored. */
    method GetTransactions() returns (txs: seq<Transaction>)
      ensures TransactionsKey !in slots ==> txs == []
      ensures txs == ReadTransactions(slots)
    {
      if TransactionsKey in slots && slots[TransactionsKey].TransactionList? {
        txs := slots[TransactionsKey].txs;
      } else {
        txs := [];
      }
    }

    /**
     * `addPendingTransaction(action, transaction, id = null)`: load the queue,
     * append one item and store the queue again; `now` is the item's timestamp.
     */
    method AddPendingTransaction(now: string, action: Action, transaction: Transaction, originalId: Option<string> := None)
      returns (ok: bool)
      modifies this`slots
      ensures ok == writable
      ensures ok ==> ReadPending(slots) == old(ReadPending(slots)) + [PendingItem(action, transaction, originalId, now)]
      ensures ok ==> slots == old(slots)[PendingKey := PendingList(ReadPending(slots))]
      ensures !ok ==> slots == old(slots)
      ensures ReadTransactions(slots) == old(ReadTransactions(slots)) && ReadSyncFlag(slots) == old(ReadSyncFlag(slots))
    {
      var pending := GetPendingTransactions();
      var item := PendingItem(action, transaction, originalId, now);
      pending := pending + [item];
      if writable {
        slots := slots[PendingKey := PendingList(pending)];
        ok := true;
      } else {
        ok := false;
      }
    }

    /** `getPendingTransactions()`: the stored queue, `[]` when nothing (or no queue) is stored. */
    method GetPendingTransactions() returns (items: seq<PendingItem>)
      ensures PendingKey !in slots ==> items == []
      ensures items == ReadPending(slots)
    {
      if PendingKey in slots && slots[PendingKey].PendingList? {
        items := slots[PendingKey].items;
      } else {
        items := [];
      }
    }

    /** `clearPendingTransactions()`: remove the queue slot. */
    method ClearPendingTransactions() returns (ok: bool)
      modifies this`slots
      ensures ok == writable
      ensures slots == if ok then old(slots) - {PendingKey} else old(slots)
      ensures ok ==> ReadPending(slots) == []
      ensures ReadTransactions(slots) == old(ReadTransactions(slots)) && ReadSyncFlag(slots) == old(ReadSyncFlag(slots))
    {
      if writable {
        slots := slots - {PendingKey};
        ok := true;
      } else {
        ok := false;
      }
    }

    /** `setSyncNeeded(needed = true)`: store 'true' or 'false' in the flag slot. */
    method SetSyncNeeded(needed: bool := true) returns (ok: bool)
      modifies this`slots
      ensures ok == writable
      ensures slots == if ok then old(slots)[SyncKey := Text(if needed then "true" else "false")] else old(slots)
      ensures ok ==> ReadSyncFlag(slots) == needed
      ensures ReadTransactions(slots) == old(ReadTransactions(slots)) && ReadPending(slots) == old(ReadPending(slots))
    {
      if writable {
        slots := slots[SyncKey := Text(if needed then "true" else "false")];
        ok := true;
      } else {
        ok := false;
      }
    }

    /** `isSyncNeeded()`: whether the flag slot holds 'true'; an absent slot reads as `false`. */
    method IsSyncNeeded() returns (needed: bool)
      ensures SyncKey !in slots ==> !needed
      ensures needed == ReadSyncFlag(slots)
    {
      needed := SyncKey in slots && slots[SyncKey] == Text("true");
    }

    /** `clearAll()`: remove the three slots and no other key. */
    method ClearAll() returns (ok: bool)
      modifies this`slots
      ensures ok == writable
      ensures slots == if ok then old(slots) - {TransactionsKey, PendingKey, SyncKey} else old(slots)
      ensures ok ==> ReadTransactions(slots) == [] && ReadPending(slots) == [] && !ReadSyncFlag(slots)
      ensures OthersUnchanged(old(slots), slots)
    {
      if writable {
        slots := slots - {TransactionsKey, PendingKey, SyncKey};
        ok := true;
      } else {
        ok := false;
      }
    }
  }
}
