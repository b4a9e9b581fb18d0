/**
 * The server store (api/index.php): a flat list of records kept in a JSON
 * file, and the request dispatch over the HTTP method and the `action` and
 * `id` query parameters.
 *
 * The data file is the value `store`; a request's body is the value
 * `json_decode(…, true)` produced (`Null` when it is not valid JSON); the
 * values `time()`, `uniqid()` and `date('c')` take are a `Clock`.
 * `Transition` is the whole server as a function from (store, request) to
 * (store', response); the handlers whose source walks the list with
 * `foreach` are also written as methods with those loops.
 */
module Api {
  import opened Wrappers
  import Seqs

  /** A decoded JSON value. An object keeps its members in document order. */
  datatype Json = Null | Bool(b: bool) | Num(n: real) | Str(s: string) | Arr(items: seq<Json>) | Obj(members: seq<Member>)
  datatype Member = Member(key: string, value: Json)

  /** A PHP associative array: one stored transaction. */
  type Record = map<string, Json>

  /** What `time()`, `uniqid()` and `date('c')` return during the request. */
  datatype Clock = Clock(time: string, uniqid: string, date: string)

  datatype Failure =
    | InvalidAction      // 'Neplatná akce'
    | InvalidData        // 'Neplatná data'
    | NotFound           // 'Transakce nenalezena'
    | InvalidActionOrId  // 'Neplatná akce nebo ID'
    | UnsupportedMethod  // 'Nepodporovaná metoda'
    | Fault              // an uncaught PHP error: the script stops before saving

  datatype Body =
    | Empty
    | Error(failure: Failure)
    | Listing(records: seq<Record>)
    | Added(id: Json, data: Record)
    | Updated(data: Record)
    | Deleted
    | Merged(list: seq<Record>)

  datatype Response = Response(status: int, body: Body)

  /** `$_SERVER['REQUEST_METHOD']`, `$_GET['action'] ?? null`, `$_GET['id'] ?? null` and the decoded body. */
  datatype Request = Request(verb: string, action: Option<string>, id: Option<string>, body: Json)

  /** PHP's `!$value` on a decoded value. */
  predicate Falsy(j: Json) {
    match j
    case Null => true
    case Bool(b) => !b
    case Num(n) => n == 0.0
    case Str(s) => s == "" || s == "0"
    case Arr(items) => items == []
    case Obj(members) => members == []
  }

  /** A query parameter used as a condition: present and neither "" nor "0". */
  predicate TruthyId(id: Option<string>) {
    id.Some? && id.value != "" && id.value != "0"
  }

  /** The index of the last member with `key`, or -1: the member whose value a decoded object keeps. */
  function LastAt(members: seq<Member>, key: string): (k: int)
    ensures -1 <= k < |members|
    ensures k >= 0 ==> members[k].key == key
    ensures forall j :: k < j < |members| ==> members[j].key != key
    decreases |members|
  {
    if |members| == 0 then -1
    else
      var k := LastAt(members[1..], key);
      if k >= 0 then k + 1 else if members[0].key == key then 0 else -1
  }

  /** The index of the first member with `key`, or -1: where a decoded object puts that key. */
  function FirstAt(members: seq<Member>, key: string): (k: int)
    ensures -1 <= k < |members|
    ensures k >= 0 ==> members[k].key == key
    ensures forall j :: 0 <= j < (if k == -1 then |members| else k) ==> members[j].key != key
    decreases |members|
  {
    if |members| == 0 then -1
    else if members[0].key == key then 0
    else
      var k := FirstAt(members[1..], key);
      if k == -1 then -1 else k + 1
  }

  /** `LastAt` is the one index whose member has `key` with no later member having it. */
  lemma LastAtUnique(members: seq<Member>, key: string, k: int)
    requires -1 <= k < |members|
    requires k >= 0 ==> members[k].key == key
    requires forall j :: k < j < |members| ==> members[j].key != key
    ensures LastAt(members, key) == k
  {
  }

  /** Appending a member makes it the last one with its key and leaves the other keys' last members alone. */
  lemma LastAtSnoc(init: seq<Member>, m: Member)
    ensures forall key :: LastAt(init + [m], key) == if m.key == key then |init| else LastAt(init, key)
  {
    var members := init + [m];
    forall key ensures LastAt(members, key) == if m.key == key then |init| else LastAt(init, key) {
      assert members[|init|] == m;
      if m.key == key {
        LastAtUnique(members, key, |init|);
      } else {
        var l := LastAt(init, key);
        assert forall j :: 0 <= j < |init| ==> members[j] == init[j];
        LastAtUnique(members, key, l);
      }
    }
  }

  /** The associative array an object decodes to: exactly the members' keys, each set in member order. */
  function RecordOf(members: seq<Member>): (r: Record)
    ensures forall m :: m in members ==> m.key in r
    ensures forall key :: key in r ==> exists m :: m in members && m.key == key
    decreases |members|
  {
    if |members| == 0 then map[]
    else
      var last := members[|members| - 1];
      RecordOf(members[..|members| - 1])[last.key := last.value]
  }

  /** A later member overrides an earlier one: each key holds the value of the last member with that key. */
  lemma {:induction false} RecordOfLastWins(members: seq<Member>)
    ensures forall key :: key in RecordOf(members) <==> LastAt(members, key) >= 0
    ensures forall key :: key in RecordOf(members) ==> RecordOf(members)[key] == members[LastAt(members, key)].value
    decreases |members|
  {
    if |members| > 0 {
      var init := members[..|members| - 1];
      var last := members[|members| - 1];
      assert members == init + [last];
      RecordOfLastWins(init);
      LastAtSnoc(init, last);
    }
  }

  /** `$record['id']`, which reads `null` when the key is missing. */
  function IdOf(r: Record): Json {
    if "id" in r then r["id"] else Null
  }

  /** `isset($record['id'])`. */
  predicate HasId(r: Record) {
    "id" in r && r["id"] != Null
  }

  /** The id the server assigns: `'server_' . time() . '_' . uniqid()`. */
  function ServerId(clock: Clock): (id: string)
    ensures "server_" <= id
  {
    "server_" + clock.time + "_" + clock.uniqid
  }

  /** The index of the first record whose id is strictly the string `id`, or -1. */
  function Find(store: seq<Record>, id: string): (k: int)
    ensures -1 <= k < |store|
    ensures k >= 0 ==> IdOf(store[k]) == Str(id)
    ensures forall j :: 0 <= j < |store| && (k == -1 || j < k) ==> IdOf(store[j]) != Str(id)
    decreases |store|
  {
    if |store| == 0 then -1
    else if IdOf(store[0]) == Str(id) then 0
    else
      var k := Find(store[1..], id);
      if k == -1 then -1 else k + 1
  }

  // ---------------------------------------------------------------- add

  /** The stored form of an added record: an id when none is set, `synced` and `createdAt`. */
  function Stamped(given: Record, clock: Clock): Record {
    (if HasId(given) then given else given["id" := Str(ServerId(clock))])
      ["synced" := Bool(true)]["createdAt" := Str(clock.date)]
  }

  /** `POST ?action=add`. */
  function AddResult(store: seq<Record>, body: Json, clock: Clock): (seq<Record>, Response) {
    if Falsy(body) then (store, Response(400, Error(InvalidData)))
    else if !body.Obj? then (store, Response(500, Error(Fault)))
    else
      var r := Stamped(RecordOf(body.members), clock);
      (store + [r], Response(200, Added(r["id"], r)))
  }

  /**
   * An empty or invalid body is refused with 400. An object body is appended
   * as exactly one new record: earlier records are untouched, a set `id` is
   * kept and a missing one becomes a `server_` id, `synced` is true,
   * `createdAt` is the server's date, and every other field is the client's.
   */
  lemma AddSpec(store: seq<Record>, body: Json, clock: Clock)
    ensures Falsy(body) ==> AddResult(store, body, clock) == (store, Response(400, Error(InvalidData)))
    ensures !Falsy(body) && body.Obj? ==>
      var (next, resp) := AddResult(store, body, clock);
      var given := RecordOf(body.members);
      && |next| == |store| + 1 && next[..|store|] == store
      && var r := next[|store|];
      && resp == Response(200, Added(r["id"], r))
      && r.Keys == given.Keys + {"id", "synced", "createdAt"}
      && (HasId(given) ==> r["id"] == given["id"])
      && (!HasId(given) ==> r["id"].Str? && "server_" <= r["id"].s)
      && r["synced"] == Bool(true) && r["createdAt"] == Str(clock.date)
      && (forall key :: key in given && key != "id" && key != "synced" && key != "createdAt" ==> r[key] == given[key])
  {
    if !Falsy(body) && body.Obj? {
      var (next, _) := AddResult(store, body, clock);
      assert next[..|store|] == store;
    }
  }

  // ------------------------------------------------------------- update

  /** `array_merge($transaction, $input)` followed by `synced` and `updatedAt`. */
  function MergedRecord(t: Record, given: Record, clock: Clock): Record {
    (t + given)["synced" := Bool(true)]["updatedAt" := Str(clock.date)]
  }

  /** The client's fields override, the record's other fields stay, and `synced` and `updatedAt` are set last. */
  lemma MergedRecordSpec(t: Record, given: Record, clock: Clock)
    ensures MergedRecord(t, given, clock).Keys == t.Keys + given.Keys + {"synced", "updatedAt"}
    ensures MergedRecord(t, given, clock)["synced"] == Bool(true)
    ensures MergedRecord(t, given, clock)["updatedAt"] == Str(clock.date)
    ensures forall key :: key in given && key != "synced" && key != "updatedAt" ==> MergedRecord(t, given, clock)[key] == given[key]
    ensures forall key :: key in t && key !in given && key != "synced" && key != "updatedAt" ==> MergedRecord(t, given, clock)[key] == t[key]
  {
  }

  /** `PUT ?action=update&id=…` once the action and id have been accepted. */
  function UpdateResult(store: seq<Record>, id: string, body: Json, clock: Clock): (seq<Record>, Response) {
    if Falsy(body) then (store, Response(400, Error(InvalidData)))
    else
      var k := Find(store, id);
      if k == -1 then (store, Response(404, Error(NotFound)))
      else if !body.Obj? then (store, Response(500, Error(Fault)))
      else
        var r := MergedRecord(store[k], RecordOf(body.members), clock);
        (store[k := r], Response(200, Updated(r)))
  }

  /**
   * An empty body is refused with 400 before the search; no record with the
   * id gives 404; either way the store is unchanged. Otherwise only the first
   * record with the id changes: the client's fields override, the other
   * fields stay, `synced` is true and `updatedAt` is the server's date (the
   * body may even replace the id).
   */
  lemma UpdateSpec(store: seq<Record>, id: string, body: Json, clock: Clock)
    ensures Falsy(body) ==> UpdateResult(store, id, body, clock) == (store, Response(400, Error(InvalidData)))
    ensures !Falsy(body) && (forall j :: 0 <= j < |store| ==> IdOf(store[j]) != Str(id)) ==>
      UpdateResult(store, id, body, clock) == (store, Response(404, Error(NotFound)))
    ensures !Falsy(body) && body.Obj? && (exists j :: 0 <= j < |store| && IdOf(store[j]) == Str(id)) ==>
      var (next, resp) := UpdateResult(store, id, body, clock);
      var k := Find(store, id);
      var given := RecordOf(body.members);
      && 0 <= k < |store| && IdOf(store[k]) == Str(id)
      && (forall j :: 0 <= j < k ==> IdOf(store[j]) != Str(id))
      && |next| == |store|
      && (forall j :: 0 <= j < |store| && j != k ==> next[j] == store[j])
      && resp == Response(200, Updated(next[k]))
      && next[k].Keys == store[k].Keys + given.Keys + {"synced", "updatedAt"}
      && next[k]["synced"] == Bool(true) && next[k]["updatedAt"] == Str(clock.date)
      && (forall key :: key in given && key != "synced" && key != "updatedAt" ==> next[k][key] == given[key])
      && (forall key :: key in store[k] && key !in given && key != "synced" && key != "updatedAt" ==> next[k][key] == store[k][key])
      && IdOf(next[k]) == if "id" in given then given["id"] else Str(id)
  {
    if !Falsy(body) && body.Obj? && (exists j :: 0 <= j < |store| && IdOf(store[j]) == Str(id)) {
      var k := Find(store, id);
      MergedRecordSpec(store[k], RecordOf(body.members), clock);
    }
  }

  /** The update handler with its `foreach … break` search. */
  method Update(store: seq<Record>, id: string, body: Json, clock: Clock) returns (next: seq<Record>, resp: Response)
    ensures (next, resp) == UpdateResult(store, id, body, clock)
  {
    if Falsy(body) {
      return store, Response(400, Error(InvalidData));
    }
    var i := 0;
    while i < |store| && IdOf(store[i]) != Str(id)
      invariant 0 <= i <= |store|
      invariant forall j :: 0 <= j < i ==> IdOf(store[j]) != Str(id)
    {
      i := i + 1;
    }
    if i == |store| {
      return store, Response(404, Error(NotFound));
    }
    if !body.Obj? {
      return store, Response(500, Error(Fault));
    }
    var transaction := store[i] + RecordOf(body.members);
    transaction := transaction["synced" := Bool(true)];
    transaction := transaction["updatedAt" := Str(clock.date)];
    next := store[i := transaction];
    resp := Response(200, Updated(transaction));
  }

  // ------------------------------------------------------------- delete

  /** `DELETE ?action=delete&id=…` once the action and id have been accepted. */
  function DeleteResult(store: seq<Record>, id: string): (seq<Record>, Response) {
    var k := Find(store, id);
    if k == -1 then (store, Response(404, Error(NotFound)))
    else (store[..k] + store[k + 1..], Response(200, Deleted))
  }

  /**
   * No record with the id gives 404 and an unchanged store. Otherwise the
   * first record with the id is removed, the list is one shorter, and every
   * other record keeps its place in order.
   */
  lemma DeleteSpec(store: seq<Record>, id: string)
    ensures (forall j :: 0 <= j < |store| ==> IdOf(store[j]) != Str(id)) <==>
      DeleteResult(store, id) == (store, Response(404, Error(NotFound)))
    ensures (exists j :: 0 <= j < |store| && IdOf(store[j]) == Str(id)) ==>
      var (next, resp) := DeleteResult(store, id);
      var k := Find(store, id);
      && resp == Response(200, Deleted)
      && 0 <= k < |store| && IdOf(store[k]) == Str(id)
      && (forall j :: 0 <= j < k ==> IdOf(store[j]) != Str(id))
      && |next| == |store| - 1
      && (forall j :: 0 <= j < k ==> next[j] == store[j])
      && (forall j :: k <= j < |next| ==> next[j] == store[j + 1])
  {
    var k := Find(store, id);
    if k == -1 {
      assert DeleteResult(store, id) == (store, Response(404, Error(NotFound)));
    } else {
      var next := store[..k] + store[k + 1..];
      assert DeleteResult(store, id) == (next, Response(200, Deleted));
      assert |next| == |store| - 1;
      assert forall j :: 0 <= j < k ==> next[j] == store[j];
      assert forall j :: k <= j < |next| ==> next[j] == store[j + 1];
    }
  }

  /** The delete handler with its `foreach`, `unset`, reindex and `break`. */
  method Delete(store: seq<Record>, id: string) returns (next: seq<Record>, resp: Response)
    ensures (next, resp) == DeleteResult(store, id)
  {
    next := store;
    var found := false;
    var i := 0;
    while i < |store| && !found
      invariant 0 <= i <= |store|
      invariant !found ==> next == store && forall j :: 0 <= j < i ==> IdOf(store[j]) != Str(id)
      invariant found ==> 0 < i && Find(store, id) == i - 1 && next == store[..i - 1] + store[i..]
    {
      if IdOf(store[i]) == Str(id) {
        next := store[..i] + store[i + 1..];
        found := true;
      }
      i := i + 1;
    }
    resp := if found then Response(200, Deleted) else Response(404, Error(NotFound));
  }

  // --------------------------------------------------------------- sync

  /** The client list in a sync body: `transactions` must be set and an array (a JSON list or object). */
  function SyncItems(body: Json): Option<seq<Json>> {
    if !body.Obj? then None
    else
      var input := RecordOf(body.members);
      if "transactions" !in input then None
      else
        match input["transactions"]
        case Arr(items) => Some(items)
        case Obj(members) => Some(ObjectValues(members))
        case _ => None
  }

  /** The distinct keys of an object not in `seen`, each once, in the order of their first occurrence. */
  function FirstKeys(members: seq<Member>, seen: set<string>): (keys: seq<string>)
    ensures forall i :: 0 <= i < |keys| ==> exists m :: m in members && m.key == keys[i]
    ensures forall m :: m in members && m.key !in seen ==> m.key in keys
    ensures forall i, j :: 0 <= i < j < |keys| ==> keys[i] != keys[j]
    ensures forall i :: 0 <= i < |keys| ==> keys[i] !in seen
    decreases |members|
  {
    if |members| == 0 then []
    else
      var head := members[0].key;
      if head in seen then FirstKeys(members[1..], seen)
      else [head] + FirstKeys(members[1..], seen + {head})
  }

  /** Past a first member with another key, each key that occurs later is found one place further on. */
  lemma FirstAtShift(members: seq<Member>, keys: seq<string>)
    requires |members| > 0
    requires forall i :: 0 <= i < |keys| ==> keys[i] != members[0].key
    requires forall i :: 0 <= i < |keys| ==> exists m :: m in members[1..] && m.key == keys[i]
    ensures forall i :: 0 <= i < |keys| ==> 1 <= FirstAt(members, keys[i]) == FirstAt(members[1..], keys[i]) + 1
  {
    forall i | 0 <= i < |keys|
      ensures 1 <= FirstAt(members, keys[i]) == FirstAt(members[1..], keys[i]) + 1
    {
      var m :| m in members[1..] && m.key == keys[i];
      var x :| 0 <= x < |members[1..]| && members[1..][x] == m;
    }
  }

  /** Each key occurs in `members`, and the keys are in the order of their first occurrence. */
  predicate InFirstOrder(members: seq<Member>, keys: seq<string>) {
    forall i, j :: 0 <= i < j < |keys| ==> 0 <= FirstAt(members, keys[i]) < FirstAt(members, keys[j])
  }

  /** `FirstKeys` lists the keys in the order in which they first occur. */
  lemma {:induction false} FirstKeysInOrder(members: seq<Member>, seen: set<string>)
    ensures InFirstOrder(members, FirstKeys(members, seen))
    decreases |members|
  {
    if |members| > 0 {
      var head := members[0].key;
      var next := if head in seen then seen else seen + {head};
      var rest := FirstKeys(members[1..], next);
      FirstKeysInOrder(members[1..], next);
      assert forall i :: 0 <= i < |rest| ==> rest[i] != head;
      FirstAtShift(members, rest);
      assert InFirstOrder(members, rest);
      if head !in seen {
        ConsInFirstOrder(members, rest, head);
      }
    }
  }

  /** A key found first at index 0 can go in front of keys that are in order and found later. */
  lemma ConsInFirstOrder(members: seq<Member>, keys: seq<string>, head: string)
    requires InFirstOrder(members, keys)
    requires forall i :: 0 <= i < |keys| ==> 1 <= FirstAt(members, keys[i])
    requires FirstAt(members, head) == 0
    ensures InFirstOrder(members, [head] + keys)
  {
  }

  /** The values `foreach` visits in a decoded object. */
  function ObjectValues(members: seq<Member>): seq<Json> {
    var keys := FirstKeys(members, {});
    var record := RecordOf(members);
    seq(|keys|, i requires 0 <= i < |keys| => record[keys[i]])
  }

  lemma {:induction false} DistinctCount(s: seq<string>)
    requires forall i, j :: 0 <= i < j < |s| ==> s[i] != s[j]
    ensures |set x | x in s| == |s|
    decreases |s|
  {
    if |s| > 0 {
      DistinctCount(s[1..]);
      assert (set x | x in s) == {s[0]} + (set x | x in s[1..]);
      assert s[0] !in (set x | x in s[1..]);
    }
  }

  /**
   * A decoded object yields one value per distinct key, in the order the
   * keys first occur, each the value of the last member with that key.
   */
  lemma ObjectValuesSpec(members: seq<Member>)
    ensures |ObjectValues(members)| == |FirstKeys(members, {})| == |RecordOf(members).Keys|
    ensures (set k | k in FirstKeys(members, {})) == RecordOf(members).Keys
    ensures InFirstOrder(members, FirstKeys(members, {}))
    ensures forall i :: 0 <= i < |ObjectValues(members)| ==>
      var key := FirstKeys(members, {})[i];
      LastAt(members, key) >= 0 && ObjectValues(members)[i] == members[LastAt(members, key)].value
  {
    var keys := FirstKeys(members, {});
    var values := ObjectValues(members);
    var record := RecordOf(members);
    FirstKeysInOrder(members, {});
    RecordOfLastWins(members);
    assert (set k | k in keys) == record.Keys;
    DistinctCount(keys);
    forall i | 0 <= i < |values|
      ensures LastAt(members, keys[i]) >= 0 && values[i] == members[LastAt(members, keys[i])].value
    {
      assert keys[i] in record;
    }
  }

  /** One client entry as a record; anything but an object reads as an empty array. */
  function ClientRecord(j: Json): Record {
    if j.Obj? then RecordOf(j.members) else map[]
  }

  /** `array_column($serverTransactions, 'id')`, as a set. */
  function ServerIds(store: seq<Record>): set<Json> {
    set r | r in store && "id" in r :: r["id"]
  }

  /** Whether a client entry's id is absent from the server ids (`!in_array(…, $serverIds)`). */
  predicate Absent(ids: set<Json>, c: Json) {
    IdOf(ClientRecord(c)) !in ids
  }

  /** `Absent` as the test of a filter. */
  function AbsentTest(ids: set<Json>): Json -> bool {
    (c: Json) => Absent(ids, c)
  }

  /** A client entry as it is appended: its record with `synced` set. */
  function Marked(c: Json): Record {
    ClientRecord(c)["synced" := Bool(true)]
  }

  /** The client entries whose id the server does not have, marked synced, as the second loop appends them. */
  function ClientOnly(items: seq<Json>, ids: set<Json>): (r: seq<Record>)
    ensures |r| <= |items|
    ensures forall k :: 0 <= k < |r| ==> IdOf(r[k]) !in ids && "synced" in r[k] && r[k]["synced"] == Bool(true)
    decreases |items|
  {
    if |items| == 0 then []
    else
      var last := items[|items| - 1];
      ClientOnly(items[..|items| - 1], ids) + (if Absent(ids, last) then [Marked(last)] else [])
  }

  /** One appended record per client entry with a new id. */
  lemma {:induction false} ClientOnlyCount(items: seq<Json>, ids: set<Json>)
    ensures |ClientOnly(items, ids)| == |Seqs.Where(items, AbsentTest(ids))|
    decreases |items|
  {
    if |items| > 0 {
      ClientOnlyCount(items[..|items| - 1], ids);
    }
  }

  /** The appended records keep the client's order. */
  lemma {:induction false} ClientOnlyConcat(a: seq<Json>, b: seq<Json>, ids: set<Json>)
    ensures ClientOnly(a + b, ids) == ClientOnly(a, ids) + ClientOnly(b, ids)
    decreases |b|
  {
    if |b| > 0 {
      var b' := b[..|b| - 1];
      assert (a + b)[..|a + b| - 1] == a + b';
      ClientOnlyConcat(a, b', ids);
    } else {
      assert a + b == a;
    }
  }

  /** Every client entry with a new id is appended. */
  lemma {:induction false} ClientOnlyHas(items: seq<Json>, ids: set<Json>, c: Json)
    requires c in items && Absent(ids, c)
    ensures Marked(c) in ClientOnly(items, ids)
    decreases |items|
  {
    var n := |items| - 1;
    if items[n] != c {
      assert items == items[..n] + [items[n]];
      ClientOnlyHas(items[..n], ids, c);
    }
  }

  /** `POST ?action=sync`. */
  function SyncResult(store: seq<Record>, body: Json): (seq<Record>, Response) {
    match SyncItems(body)
    case None => (store, Response(400, Error(InvalidData)))
    case Some(items) =>
      var merged := store + ClientOnly(items, ServerIds(store));
      (merged, Response(200, Merged(merged)))
  }

  /**
   * A sync body without an array `transactions` is refused with 400 and
   * changes nothing. Otherwise the result is the server list verbatim and in
   * order, followed by the client entries whose id is not a server id, in
   * client order, each marked synced: no entry sharing an id with the server
   * is added, every client entry with a new id is, and the length is the
   * server's plus the number of such entries.
   */
  lemma SyncSpec(store: seq<Record>, body: Json)
    ensures SyncItems(body) == None ==> SyncResult(store, body) == (store, Response(400, Error(InvalidData)))
    ensures SyncItems(body).Some? ==>
      var items := SyncItems(body).value;
      var ids := ServerIds(store);
      var (next, resp) := SyncResult(store, body);
      && resp == Response(200, Merged(next))
      && next[..|store|] == store
      && next[|store|..] == ClientOnly(items, ids)
      && |next| == |store| + |Seqs.Where(items, AbsentTest(ids))|
      && (forall j :: |store| <= j < |next| ==> IdOf(next[j]) !in ids && "synced" in next[j] && next[j]["synced"] == Bool(true))
      && (forall c :: c in items && Absent(ids, c) ==> Marked(c) in next[|store|..])
  {
    if SyncItems(body).Some? {
      var items := SyncItems(body).value;
      var ids := ServerIds(store);
      var next := store + ClientOnly(items, ids);
      assert next[..|store|] == store;
      assert next[|store|..] == ClientOnly(items, ids);
      ClientOnlyCount(items, ids);
      forall j | |store| <= j < |next|
        ensures IdOf(next[j]) !in ids && "synced" in next[j] && next[j]["synced"] == Bool(true)
      {
        assert next[j] == ClientOnly(items, ids)[j - |store|];
      }
      forall c | c in items && Absent(ids, c)
        ensures Marked(c) in next[|store|..]
      {
        ClientOnlyHas(items, ids, c);
      }
    }
  }

  /**
   * The merge at the heart of the sync handler, with its two `foreach` loops:
   * every server entry, then each client entry whose id is not a server id.
   */
  method Merge(store: seq<Record>, items: seq<Json>) returns (merged: seq<Record>)
    ensures merged == store + ClientOnly(items, ServerIds(store))
  {
    merged := [];
    var ids := ServerIds(store);
    for i := 0 to |store|
      invariant merged == store[..i]
    {
      assert store[..i + 1] == store[..i] + [store[i]];
      merged := merged + [store[i]];
    }
    assert store[..|store|] == store;
    for i := 0 to |items|
      invariant merged == store + ClientOnly(items[..i], ids)
    {
      assert items[..i + 1][..i] == items[..i];
      var transaction := ClientRecord(items[i]);
      if IdOf(transaction) !in ids {
        transaction := transaction["synced" := Bool(true)];
        merged := merged + [transaction];
      }
    }
    assert items[..|items|] == items;
  }

  /** The sync handler: the body is checked, then merged with the store. */
  method Sync(store: seq<Record>, body: Json) returns (next: seq<Record>, resp: Response)
    ensures (next, resp) == SyncResult(store, body)
  {
    var found := SyncItems(body);
    if found.None? {
      return store, Response(400, Error(InvalidData));
    }
    next := Merge(store, found.value);
    resp := Response(200, Merged(next));
  }

  // ----------------------------------------------------------- dispatch

  /** The whole server: one request against the store. */
  function Transition(store: seq<Record>, req: Request, clock: Clock): (seq<Record>, Response) {
    if req.verb == "OPTIONS" then (store, Response(200, Empty))
    else if req.verb == "GET" then
      if req.action == Some("get") then (store, Response(200, Listing(store)))
      else (store, Response(400, Error(InvalidAction)))
    else if req.verb == "POST" then
      if req.action == Some("add") then AddResult(store, req.body, clock)
      else if req.action == Some("sync") then SyncResult(store, req.body)
      else (store, Response(400, Error(InvalidAction)))
    else if req.verb == "PUT" then
      if req.action == Some("update") && TruthyId(req.id) then UpdateResult(store, req.id.value, req.body, clock)
      else (store, Response(400, Error(InvalidActionOrId)))
    else if req.verb == "DELETE" then
      if req.action == Some("delete") && TruthyId(req.id) then DeleteResult(store, req.id.value)
      else (store, Response(400, Error(InvalidActionOrId)))
    else (store, Response(405, Error(UnsupportedMethod)))
  }

  predicate KnownVerb(verb: string) {
    verb == "OPTIONS" || verb == "GET" || verb == "POST" || verb == "PUT" || verb == "DELETE"
  }

  /**
   * Every answer but 200 leaves the store as it was; only the five known
   * methods are answered with something other than 405; GET, OPTIONS and
   * refused actions never change the store.
   */
  lemma TransitionSpec(store: seq<Record>, req: Request, clock: Clock)
    ensures Transition(store, req, clock).1.status != 200 ==> Transition(store, req, clock).0 == store
    ensures Transition(store, req, clock).1.status == 405 <==> !KnownVerb(req.verb)
    ensures Transition(store, req, clock).1.status in {200, 400, 404, 405, 500}
    ensures req.verb == "GET" || req.verb == "OPTIONS" ==> Transition(store, req, clock).0 == store
    ensures req.verb == "GET" && req.action != Some("get") ==> Transition(store, req, clock).1 == Response(400, Error(InvalidAction))
  {
  }
}
