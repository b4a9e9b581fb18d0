/**
 * The client's records: a transaction as the browser holds it, the form that
 * creates or edits one, a queued (pending) mutation and the outcome of a
 * remote call.
 */
module Entities {
  import opened Wrappers

  /**
   * An amount as `parseFloat` produced it from the form, kept as the text
   * JavaScript prints for that number ("12.5", "0", "NaN"). Only its
   * truthiness is ever looked at.
   */
  datatype Amount = Amount(shown: string)

  /** `!!amount`: the numbers 0, -0 (both print "0") and NaN are falsy. */
  predicate Truthy(a: Amount) {
    a.shown != "0" && a.shown != "NaN"
  }

  /** A transaction as the client keeps it; `kind` is the source's `type` field. */
  datatype Transaction = Transaction(
    id: string,
    amount: Amount,
    kind: string,
    category: string,
    date: string,
    notes: string,
    createdAt: string,
    updatedAt: Option<string>,
    synced: bool)

  /** The fields the add and edit forms supply (`notes` already defaulted to ""). */
  datatype Form = Form(amount: Amount, kind: string, category: string, date: string, notes: string)

  /** The `action` of a queued mutation: 'add', 'update' or 'delete'. */
  datatype Action = Add | Update | Delete

  /**
   * A queued mutation. `originalId` is the id the mutation targets
   * (`null` by default); `queuedAt` is the ISO time of queueing.
   */
  datatype PendingItem = PendingItem(action: Action, transaction: Transaction, originalId: Option<string>, queuedAt: string)

  /**
   * The result of one remote call: made while offline (`{offline: true}`),
   * failed (network error or non-2xx), or done with the response `data`.
   */
  datatype Remote<T> = Offline | Failed | Done(data: T)

  /**
   * `ts.findIndex(t => t.id === id)`: the first index holding `id`, or -1.
   */
  function IndexOfId(ts: seq<Transaction>, id: string): (r: int)
    ensures -1 <= r < |ts|
    ensures r >= 0 ==> ts[r].id == id
    ensures forall j :: 0 <= j < |ts| && (r == -1 || j < r) ==> ts[j].id != id
    decreases |ts|
  {
    if |ts| == 0 then -1
    else if ts[0].id == id then 0
    else
      var k := IndexOfId(ts[1..], id);
      if k == -1 then -1 else k + 1
  }
}
