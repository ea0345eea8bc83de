// The client's outbox: coalescing edits per record, building a batch, applying an ack.

module Outbox {
  import opened SyncTypes
  import opened MapSums

  const MAX_PUSH_BATCH: nat := 50
  const MAX_PUSH_BYTES: nat := 700_000
  const MAX_ATTEMPTS: nat := 10

  /** A local row: what the device stores for a live record. */
  datatype Local = Local(body: Body, updatedAt: Time)

  datatype Item = Item(key: Key, opId: Id, operation: Operation, createdAt: Time, attempts: nat, nextRetryAt: Time)

  /** One item per record. */
  type Queue = map<Key, Item>

  // ----- enqueue -----

  /** What is queued when `incoming` meets what is already queued: nothing when an unsent upsert is
      followed by a delete. */
  function Coalesce(existing: Option<Operation>, incoming: Operation, inFlight: bool): Option<Operation> {
    if existing == Some(Upsert) && incoming == Delete && !inFlight then None else Some(incoming)
  }

  function Enqueue(q: Queue, inFlight: set<Id>, key: Key, operation: Operation, opId: Id, now: Time): Queue {
    var existing := if key in q then Some(q[key].operation) else None;
    var flying := key in q && q[key].opId in inFlight;
    match Coalesce(existing, operation, flying)
    case None => q - {key}
    case Some(next) =>
      var createdAt := if key in q && q[key].operation == next && !flying then q[key].createdAt else now;
      q[key := Item(key, opId, next, createdAt, 0, 0)]
  }

  /** A fresh item: it has all its attempts left and may be sent at any time from zero on. */
  predicate IsFresh(item: Item, key: Key, operation: Operation, opId: Id) {
    item.key == key && item.operation == operation && item.opId == opId && item.attempts == 0 && item.nextRetryAt <= 0
  }

  /** The unsent operation of a record, if it is of this kind. */
  predicate IsUnsent(q: Queue, inFlight: set<Id>, key: Key, operation: Operation) {
    key in q && q[key].operation == operation && q[key].opId !in inFlight
  }

  /** Every change starts with a clean slate: it is queued as a fresh item, whatever became of the one it
      replaces, unless it is a delete and meets an unsent upsert; it keeps its place in the queue only if it
      replaces an unsent operation of its own kind; and no other record's item is touched. */
  lemma EnqueuedIsFresh(q: Queue, inFlight: set<Id>, key: Key, operation: Operation, opId: Id, now: Time)
    ensures var q1 := Enqueue(q, inFlight, key, operation, opId, now);
      && (key in q1 <==> !(operation.Delete? && IsUnsent(q, inFlight, key, Upsert)))
      && (key in q1 ==> IsFresh(q1[key], key, operation, opId))
      && (key in q1 ==> q1[key].createdAt == if IsUnsent(q, inFlight, key, operation) then q[key].createdAt else now)
      && q1 - {key} == q - {key}
  {
  }

  // ----- build -----

  datatype Batch = Batch(mutations: seq<Mutation>, items: seq<Item>, bytes: nat, dropped: set<Key>)

  const EMPTY_BATCH := Batch([], [], 256, {})

  /** The operation as it is sent now: an upsert carries the stored row, a delete its own time. */
  function MutationFor(item: Item, rows: map<Key, Local>): Option<Mutation> {
    if item.operation.Delete? then Some(Mutation(item.opId, item.key, Delete, item.createdAt, None))
    else if item.key in rows then
      var row := rows[item.key];
      Some(Mutation(item.opId, item.key, Upsert, row.updatedAt, Some(Record(item.key.id, row.body, row.updatedAt, None))))
    else None
  }

  /** The build loop: skip what waits for a retry, stop at the count or the byte cap, drop upserts
      whose row is gone. The first mutation is taken whatever its size. */
  function BuildFrom(items: seq<Item>, rows: map<Key, Local>, now: Time, size: Mutation -> nat, acc: Batch): Batch
    decreases |items|
  {
    if items == [] then acc
    else if items[0].nextRetryAt > now then BuildFrom(items[1..], rows, now, size, acc)
    else if |acc.mutations| >= MAX_PUSH_BATCH then acc
    else match MutationFor(items[0], rows)
      case None => BuildFrom(items[1..], rows, now, size, acc.(dropped := acc.dropped + {items[0].key}))
      case Some(m) =>
        if |acc.mutations| > 0 && acc.bytes + size(m) + 1 > MAX_PUSH_BYTES then acc
        else BuildFrom(items[1..], rows, now, size,
               Batch(acc.mutations + [m], acc.items + [items[0]], acc.bytes + size(m) + 1, acc.dropped))
  }

  function Build(items: seq<Item>, rows: map<Key, Local>, now: Time, size: Mutation -> nat): Batch {
    BuildFrom(items, rows, now, size, EMPTY_BATCH)
  }

  /** Every mutation of a batch is the current form of its item. */
  ghost predicate Carries(b: Batch, rows: map<Key, Local>) {
    |b.mutations| == |b.items|
    && forall i :: 0 <= i < |b.items| ==> MutationFor(b.items[i], rows) == Some(b.mutations[i])
  }

  predicate IsDue(item: Item, now: Time) { item.nextRetryAt <= now }

  /** The items that can be sent: due and with something to send, in order. */
  function Sendable(items: seq<Item>, rows: map<Key, Local>, now: Time): seq<Item> {
    if items == [] then []
    else
      var n := |items| - 1;
      Sendable(items[..n], rows, now)
      + (if IsDue(items[n], now) && MutationFor(items[n], rows).Some? then [items[n]] else [])
  }

  /** Due upserts whose row is gone. */
  function Rowless(items: seq<Item>, rows: map<Key, Local>, now: Time): set<Key> {
    set item | item in items && IsDue(item, now) && MutationFor(item, rows).None? :: item.key
  }

  function SizeOf(ms: seq<Mutation>, size: Mutation -> nat): nat {
    if ms == [] then 0 else SizeOf(ms[..|ms| - 1], size) + size(ms[|ms| - 1]) + 1
  }

  /** The scan ends at this item: it is due, and the batch is full by count, or the item can be sent but
      does not fit beside what the batch already has. */
  predicate StopsAt(item: Item, rows: map<Key, Local>, now: Time, size: Mutation -> nat, b: Batch) {
    IsDue(item, now)
    && (|b.mutations| >= MAX_PUSH_BATCH
        || (MutationFor(item, rows).Some? && |b.mutations| > 0
            && b.bytes + size(MutationFor(item, rows).value) + 1 > MAX_PUSH_BYTES))
  }

  /** From `acc` to `b` the first `n` items were scanned: all that can be sent in them is taken in order,
      all due rowless upserts in them are dropped, and the scan stopped only at the end or at a cap. */
  ghost predicate Scanned(items: seq<Item>, rows: map<Key, Local>, now: Time, size: Mutation -> nat, acc: Batch, b: Batch, n: nat) {
    && n <= |items|
    && b.items == acc.items + Sendable(items[..n], rows, now)
    && b.dropped == acc.dropped + Rowless(items[..n], rows, now)
    && b.bytes - acc.bytes == SizeOf(b.mutations, size) - SizeOf(acc.mutations, size)
    && (n == |items| || StopsAt(items[n], rows, now, size, b))
  }

  lemma ScansNothing(items: seq<Item>, rows: map<Key, Local>, now: Time, size: Mutation -> nat, acc: Batch)
    requires items == [] || StopsAt(items[0], rows, now, size, acc)
    ensures Scanned(items, rows, now, size, acc, acc, 0)
  {
    assert items[..0] == [];
    assert acc.items + [] == acc.items;
    assert acc.dropped + {} == acc.dropped;
    assert Rowless([], rows, now) == {};
  }

  /** One item more in front: skipped, dropped or taken. */
  lemma ScansOneMore(items: seq<Item>, rows: map<Key, Local>, now: Time, size: Mutation -> nat, acc: Batch, acc1: Batch, b: Batch, n: nat)
    requires items != [] && Scanned(items[1..], rows, now, size, acc1, b, n)
    requires acc1.items == acc.items + (if IsDue(items[0], now) && MutationFor(items[0], rows).Some? then [items[0]] else [])
    requires acc1.dropped == acc.dropped + (if IsDue(items[0], now) && MutationFor(items[0], rows).None? then {items[0].key} else {})
    requires acc1.bytes - acc.bytes == SizeOf(acc1.mutations, size) - SizeOf(acc.mutations, size)
    ensures Scanned(items, rows, now, size, acc, b, n + 1)
  {
    ScanOneMore(items, rows, now, n);
    if n < |items[1..]| { assert items[1..][n] == items[n + 1]; }
  }

  /** The batch after one more item is scanned. */
  function WithItem(item: Item, rows: map<Key, Local>, now: Time, size: Mutation -> nat, acc: Batch): Batch {
    var m := MutationFor(item, rows);
    if !IsDue(item, now) then acc
    else if m.None? then acc.(dropped := acc.dropped + {item.key})
    else Batch(acc.mutations + [m.value], acc.items + [item], acc.bytes + size(m.value) + 1, acc.dropped)
  }

  lemma BuildByItem(items: seq<Item>, rows: map<Key, Local>, now: Time, size: Mutation -> nat, acc: Batch)
    requires items != []
    ensures BuildFrom(items, rows, now, size, acc)
         == if StopsAt(items[0], rows, now, size, acc) then acc
            else BuildFrom(items[1..], rows, now, size, WithItem(items[0], rows, now, size, acc))
  {
  }

  lemma WithItemAdds(item: Item, rows: map<Key, Local>, now: Time, size: Mutation -> nat, acc: Batch)
    ensures var acc1 := WithItem(item, rows, now, size, acc);
      && acc1.items == acc.items + (if IsDue(item, now) && MutationFor(item, rows).Some? then [item] else [])
      && acc1.dropped == acc.dropped + (if IsDue(item, now) && MutationFor(item, rows).None? then {item.key} else {})
      && acc1.bytes - acc.bytes == SizeOf(acc1.mutations, size) - SizeOf(acc.mutations, size)
  {
    var acc1 := WithItem(item, rows, now, size, acc);
    if acc1.mutations != acc.mutations { assert acc1.mutations[..|acc.mutations|] == acc.mutations; }
  }

  /** What the build loop does, exactly. */
  lemma {:induction false} BuildScans(items: seq<Item>, rows: map<Key, Local>, now: Time, size: Mutation -> nat, acc: Batch)
    returns (n: nat)
    ensures Scanned(items, rows, now, size, acc, BuildFrom(items, rows, now, size, acc), n)
    decreases |items|
  {
    n := 0;
    if items == [] {
      ScansNothing(items, rows, now, size, acc);
    } else {
      BuildByItem(items, rows, now, size, acc);
      if StopsAt(items[0], rows, now, size, acc) {
        ScansNothing(items, rows, now, size, acc);
      } else {
        var acc1 := WithItem(items[0], rows, now, size, acc);
        n := BuildScans(items[1..], rows, now, size, acc1);
        WithItemAdds(items[0], rows, now, size, acc);
        ScansOneMore(items, rows, now, size, acc, acc1, BuildFrom(items[1..], rows, now, size, acc1), n);
        n := n + 1;
      }
    }
  }

  lemma {:induction false} SendableFirst(item: Item, rest: seq<Item>, rows: map<Key, Local>, now: Time)
    ensures Sendable([item] + rest, rows, now)
         == (if IsDue(item, now) && MutationFor(item, rows).Some? then [item] else []) + Sendable(rest, rows, now)
    decreases |rest|
  {
    var all := [item] + rest;
    if rest == [] {
      assert all[..0] == [];
    } else {
      SendableFirst(item, rest[..|rest| - 1], rows, now);
      assert all[..|all| - 1] == [item] + rest[..|rest| - 1];
    }
  }

  lemma ScanOneMore(items: seq<Item>, rows: map<Key, Local>, now: Time, n: nat)
    requires n < |items|
    ensures Sendable(items[..n + 1], rows, now)
         == (if IsDue(items[0], now) && MutationFor(items[0], rows).Some? then [items[0]] else []) + Sendable(items[1..][..n], rows, now)
    ensures Rowless(items[..n + 1], rows, now)
         == (if IsDue(items[0], now) && MutationFor(items[0], rows).None? then {items[0].key} else {}) + Rowless(items[1..][..n], rows, now)
  {
    assert items[..n + 1] == [items[0]] + items[1..][..n];
    SendableFirst(items[0], items[1..][..n], rows, now);
  }

  /** What a finished batch keeps: its operations are current, due and among the items, it is within the
      caps, and only upserts without a row are dropped. `BuildScans` says exactly which. */
  lemma {:induction false} BuildFacts(items: seq<Item>, rows: map<Key, Local>, now: Time, size: Mutation -> nat, acc: Batch)
    requires Carries(acc, rows) && |acc.mutations| <= MAX_PUSH_BATCH
    requires acc.bytes <= MAX_PUSH_BYTES || |acc.mutations| == 1
    ensures var b := BuildFrom(items, rows, now, size, acc);
      && Carries(b, rows) && |b.mutations| <= MAX_PUSH_BATCH
      && acc.items <= b.items && acc.mutations <= b.mutations
      && (forall i :: |acc.items| <= i < |b.items| ==> b.items[i] in items && b.items[i].nextRetryAt <= now)
      && (forall k :: k in b.dropped ==> k in acc.dropped || (k !in rows && exists i :: 0 <= i < |items| && items[i].key == k && items[i].operation.Upsert?))
      && (b.bytes <= MAX_PUSH_BYTES || |b.mutations| == 1)
    decreases |items|
  {
    if items != [] {
      var rest := items[1..];
      if items[0].nextRetryAt > now {
        BuildFacts(rest, rows, now, size, acc);
      } else if |acc.mutations| < MAX_PUSH_BATCH {
        match MutationFor(items[0], rows)
        case None =>
          BuildFacts(rest, rows, now, size, acc.(dropped := acc.dropped + {items[0].key}));
        case Some(m) =>
          if !(|acc.mutations| > 0 && acc.bytes + size(m) + 1 > MAX_PUSH_BYTES) {
            var acc1 := Batch(acc.mutations + [m], acc.items + [items[0]], acc.bytes + size(m) + 1, acc.dropped);
            BuildFacts(rest, rows, now, size, acc1);
            var b := BuildFrom(items, rows, now, size, acc);
            assert b.items[|acc.items|] == acc1.items[|acc.items|] == items[0];
          }
      }
    }
  }

  /** A batch is a subsequence of the outbox: distinct items stay distinct. */
  lemma {:induction false} BuildKeepsDistinct(items: seq<Item>, rows: map<Key, Local>, now: Time, size: Mutation -> nat, acc: Batch)
    requires DistinctItems(acc.items + items)
    ensures DistinctItems(BuildFrom(items, rows, now, size, acc).items)
    decreases |items|
  {
    if items == [] {
      assert acc.items + items == acc.items;
    } else {
      var all := acc.items + items;
      assert DistinctItems(acc.items) by {
        forall i, j | 0 <= i < j < |acc.items| ensures acc.items[i].opId != acc.items[j].opId && acc.items[i].key != acc.items[j].key {
          assert all[i] == acc.items[i] && all[j] == acc.items[j];
        }
      }
      assert (acc.items + [items[0]]) + items[1..] == all;
      assert DistinctItems(acc.items + items[1..]) by {
        var fewer := acc.items + items[1..];
        forall i, j | 0 <= i < j < |fewer| ensures fewer[i].opId != fewer[j].opId && fewer[i].key != fewer[j].key {
          assert fewer[i] == all[if i < |acc.items| then i else i + 1];
          assert fewer[j] == all[if j < |acc.items| then j else j + 1];
        }
      }
      BuildKeepsDistinct(items[1..], rows, now, size, acc);
      BuildKeepsDistinct(items[1..], rows, now, size, acc.(dropped := acc.dropped + {items[0].key}));
      var m := MutationFor(items[0], rows);
      if m.Some? {
        BuildKeepsDistinct(items[1..], rows, now, size,
          Batch(acc.mutations + [m.value], acc.items + [items[0]], acc.bytes + size(m.value) + 1, acc.dropped));
      }
    }
  }

  /** What a freshly built batch is made of. */
  lemma BatchFromOutbox(q: Queue, items: seq<Item>, rows: map<Key, Local>, now: Time, size: Mutation -> nat) returns (b: Batch)
    requires DistinctItems(items) && forall item :: item in items ==> item.key in q && q[item.key] == item
    ensures b == Build(items, rows, now, size) && DistinctItems(b.items) && Carries(b, rows)
    ensures forall item :: item in b.items ==> item.key in q && q[item.key] == item
    ensures forall k :: k in b.dropped ==> k !in rows && k in q && q[k].operation.Upsert?
    ensures forall m :: m in b.mutations ==> exists item :: item in b.items && MutationFor(item, rows) == Some(m)
  {
    b := Build(items, rows, now, size);
    BuildFacts(items, rows, now, size, EMPTY_BATCH);
    assert EMPTY_BATCH.items + items == items;
    BuildKeepsDistinct(items, rows, now, size, EMPTY_BATCH);
    CarriedFromItems(b, rows);
  }

  lemma CarriedFromItems(b: Batch, rows: map<Key, Local>)
    requires Carries(b, rows)
    ensures forall m :: m in b.mutations ==> exists item :: item in b.items && MutationFor(item, rows) == Some(m)
  {
    forall m | m in b.mutations ensures exists item :: item in b.items && MutationFor(item, rows) == Some(m) {
      var i :| 0 <= i < |b.mutations| && b.mutations[i] == m;
      assert b.items[i] in b.items;
    }
  }

  // ----- acknowledgement -----

  function FindByOp(items: seq<Item>, opId: Id): Option<Item> {
    if items == [] then None
    else if items[|items| - 1].opId == opId then Some(items[|items| - 1])
    else FindByOp(items[..|items| - 1], opId)
  }

  function FindByRecord(items: seq<Item>, id: Id): Option<Item>
    decreases |items|
  {
    if items == [] then None
    else if items[0].key.id == id then Some(items[0])
    else FindByRecord(items[1..], id)
  }

  /** Removes an item only while the queue still holds that very operation. */
  function RemoveIfOp(q: Queue, item: Item): Queue {
    if item.key in q && q[item.key].opId == item.opId then q - {item.key} else q
  }

  function Bumped(item: Item, wake: Id -> Time): Item {
    item.(attempts := item.attempts + 1, nextRetryAt := wake(item.opId))
  }

  function BumpIfOp(q: Queue, item: Item, wake: Id -> Time): Queue {
    if item.key in q && q[item.key].opId == item.opId then q[item.key := Bumped(item, wake)] else q
  }

  function RemoveAccepted(q: Queue, items: seq<Item>, accepted: seq<Id>): Queue {
    if accepted == [] then q
    else
      var n := |accepted| - 1;
      var q1 := RemoveAccepted(q, items, accepted[..n]);
      match FindByOp(items, accepted[n])
      case None => q1
      case Some(item) => RemoveIfOp(q1, item)
  }

  function RemoveConflicts(q: Queue, items: seq<Item>, conflicts: seq<Conflict>): Queue {
    if conflicts == [] then q
    else
      var n := |conflicts| - 1;
      var q1 := RemoveConflicts(q, items, conflicts[..n]);
      match FindByRecord(items, conflicts[n].topicId)
      case None => q1
      case Some(item) => RemoveIfOp(q1, item)
  }

  /** Final: not worth another attempt. */
  predicate GivesUp(item: Item, r: Rejection) {
    !r.failure.Retryable() || item.attempts + 1 >= MAX_ATTEMPTS
  }

  function HandleRejected(q: Queue, items: seq<Item>, rejected: seq<Rejection>, wake: Id -> Time): Queue {
    if rejected == [] then q
    else
      var n := |rejected| - 1;
      var q1 := HandleRejected(q, items, rejected[..n], wake);
      match FindByOp(items, rejected[n].opId)
      case None => q1
      case Some(item) => if GivesUp(item, rejected[n]) then RemoveIfOp(q1, item) else BumpIfOp(q1, item, wake)
  }

  /** Operations recorded as failed. */
  function FailedOps(items: seq<Item>, rejected: seq<Rejection>): set<Id> {
    set r | r in rejected && FindByOp(items, r.opId).Some? && GivesUp(FindByOp(items, r.opId).value, r) :: r.opId
  }

  function ApplyAck(q: Queue, items: seq<Item>, ack: Ack, wake: Id -> Time): Queue {
    HandleRejected(RemoveConflicts(RemoveAccepted(q, items, ack.accepted), items, ack.conflicts), items, ack.rejected, wake)
  }

  /** The batch's items: one per record, one per op id. */
  ghost predicate DistinctItems(items: seq<Item>) {
    forall i, j :: 0 <= i < j < |items| ==> items[i].opId != items[j].opId && items[i].key != items[j].key
  }

  /** Where the queue still holds an operation of the batch, it holds that very item. */
  ghost predicate Current(q: Queue, items: seq<Item>) {
    forall item :: item in items && item.key in q && q[item.key].opId == item.opId ==> q[item.key] == item
  }

  lemma {:induction false} FindByOpFinds(items: seq<Item>, opId: Id)
    ensures FindByOp(items, opId).Some? ==> FindByOp(items, opId).value in items && FindByOp(items, opId).value.opId == opId
    ensures FindByOp(items, opId).None? ==> forall item :: item in items ==> item.opId != opId
    ensures DistinctItems(items) ==> forall item :: item in items && item.opId == opId ==> FindByOp(items, opId) == Some(item)
  {
    if items != [] {
      var n := |items| - 1;
      assert items == items[..n] + [items[n]];
      FindByOpFinds(items[..n], opId);
      assert DistinctItems(items) ==> DistinctItems(items[..n]);
      if DistinctItems(items) && items[n].opId == opId {
        forall item | item in items && item.opId == opId ensures item == items[n] {
          var i :| 0 <= i < |items| && items[i] == item;
        }
      }
    }
  }

  lemma {:induction false} FindByRecordFinds(items: seq<Item>, id: Id)
    ensures FindByRecord(items, id).Some? ==> FindByRecord(items, id).value in items && FindByRecord(items, id).value.key.id == id
    ensures FindByRecord(items, id).None? ==> forall item :: item in items ==> item.key.id != id
    decreases |items|
  {
    if items != [] {
      FindByRecordFinds(items[1..], id);
    }
  }

  // ----- the ack, record by record -----

  predicate ConflictHits(items: seq<Item>, conflicts: seq<Conflict>, item: Item) {
    exists c :: c in conflicts && FindByRecord(items, c.topicId) == Some(item)
  }

  /** The ack ends the operation: accepted, settled by a rename, or given up. */
  predicate Settles(items: seq<Item>, ack: Ack, item: Item) {
    item.opId in ack.accepted || ConflictHits(items, ack.conflicts, item)
    || exists r :: r in ack.rejected && r.opId == item.opId && GivesUp(item, r)
  }

  /** The ack names the operation among the rejected ones. */
  predicate IsRejected(ack: Ack, opId: Id) {
    exists r :: r in ack.rejected && r.opId == opId
  }

  /** The queue item of one record after the ack: gone if the batch's operation is still queued and
      settled, tried once more if it is merely rejected, and untouched in every other case. */
  function Fate(q: Queue, items: seq<Item>, ack: Ack, wake: Id -> Time, k: Key): Option<Item> {
    if k !in q then None
    else if q[k] !in items then Some(q[k])
    else if Settles(items, ack, q[k]) then None
    else if IsRejected(ack, q[k].opId) then Some(Bumped(q[k], wake))
    else Some(q[k])
  }

  function At(q: Queue, k: Key): Option<Item> {
    if k in q then Some(q[k]) else None
  }

  lemma {:induction false} AcceptedFate(q: Queue, items: seq<Item>, accepted: seq<Id>, k: Key)
    requires DistinctItems(items) && Current(q, items) && (forall j :: j in q ==> q[j].key == j)
    ensures At(RemoveAccepted(q, items, accepted), k)
         == if k in q && q[k] in items && q[k].opId in accepted then None else At(q, k)
  {
    if accepted != [] {
      var n := |accepted| - 1;
      AcceptedFate(q, items, accepted[..n], k);
      assert accepted == accepted[..n] + [accepted[n]];
      FindByOpFinds(items, accepted[n]);
    }
  }

  lemma {:induction false} ConflictFate(q: Queue, items: seq<Item>, conflicts: seq<Conflict>, k: Key)
    requires DistinctItems(items) && Current(q, items) && (forall j :: j in q ==> q[j].key == j)
    ensures At(RemoveConflicts(q, items, conflicts), k)
         == if k in q && q[k] in items && ConflictHits(items, conflicts, q[k]) then None else At(q, k)
  {
    if conflicts != [] {
      var n := |conflicts| - 1;
      ConflictFate(q, items, conflicts[..n], k);
      assert conflicts == conflicts[..n] + [conflicts[n]];
      FindByRecordFinds(items, conflicts[n].topicId);
    }
  }

  lemma {:induction false} RejectedFate(q: Queue, items: seq<Item>, rejected: seq<Rejection>, wake: Id -> Time, k: Key)
    requires DistinctItems(items) && Current(q, items) && (forall j :: j in q ==> q[j].key == j)
    ensures At(HandleRejected(q, items, rejected, wake), k)
         == if k !in q then None
            else if q[k] !in items then Some(q[k])
            else if exists r :: r in rejected && r.opId == q[k].opId && GivesUp(q[k], r) then None
            else if exists r :: r in rejected && r.opId == q[k].opId then Some(Bumped(q[k], wake))
            else Some(q[k])
  {
    if rejected != [] {
      var n := |rejected| - 1;
      RejectedFate(q, items, rejected[..n], wake, k);
      assert rejected == rejected[..n] + [rejected[n]];
      FindByOpFinds(items, rejected[n].opId);
    }
  }

  /** Applying an ack is exactly the per-record fate. */
  lemma AckIsFate(q: Queue, items: seq<Item>, ack: Ack, wake: Id -> Time, k: Key)
    requires DistinctItems(items) && Current(q, items) && (forall j :: j in q ==> q[j].key == j)
    ensures At(ApplyAck(q, items, ack, wake), k) == Fate(q, items, ack, wake, k)
  {
    var q1 := RemoveAccepted(q, items, ack.accepted);
    forall j ensures j in q1 ==> At(q1, j) == At(q, j) {
      AcceptedFate(q, items, ack.accepted, j);
    }
    Remains(q, q1, items);
    var q2 := RemoveConflicts(q1, items, ack.conflicts);
    forall j ensures j in q2 ==> At(q2, j) == At(q1, j) {
      ConflictFate(q1, items, ack.conflicts, j);
    }
    Remains(q1, q2, items);
    AcceptedFate(q, items, ack.accepted, k);
    ConflictFate(q1, items, ack.conflicts, k);
    RejectedFate(q2, items, ack.rejected, wake, k);
  }

  /** An operation of the batch that is still queued and merely refused stays as it was, with one attempt more
      used up, and is due again from the time given for it on. */
  lemma RetriedLater(q: Queue, items: seq<Item>, ack: Ack, wake: Id -> Time, k: Key, now: Time)
    requires DistinctItems(items) && Current(q, items) && (forall j :: j in q ==> q[j].key == j)
    requires k in q && q[k] in items && !Settles(items, ack, q[k]) && IsRejected(ack, q[k].opId)
    ensures var after := ApplyAck(q, items, ack, wake);
      && k in after && after[k].(attempts := 0, nextRetryAt := 0) == q[k].(attempts := 0, nextRetryAt := 0)
      && after[k].attempts - q[k].attempts == 1 && (IsDue(after[k], now) <==> now >= wake(q[k].opId))
  {
    AckIsFate(q, items, ack, wake, k);
    assert At(ApplyAck(q, items, ack, wake), k) == Some(Bumped(q[k], wake));
  }

  /** An answer settles an operation of the batch exactly if it accepts it, reports a rename of its record and
      none of an earlier item of that id, refuses it for good, or refuses it with its last attempt. */
  lemma SettlesIff(items: seq<Item>, ack: Ack, i: nat)
    requires i < |items| && DistinctItems(items)
    ensures Settles(items, ack, items[i])
      <==> || items[i].opId in ack.accepted
           || (exists c :: c in ack.conflicts && c.topicId == items[i].key.id && forall j :: 0 <= j < i ==> items[j].key.id != c.topicId)
           || (exists r :: r in ack.rejected && r.opId == items[i].opId
                           && (!r.failure.Retryable() || items[i].attempts + 1 >= MAX_ATTEMPTS))
  {
    forall id ensures FindByRecord(items, id) == Some(items[i])
      <==> items[i].key.id == id && forall j :: 0 <= j < i ==> items[j].key.id != id
    {
      FirstOfRecord(items, id, i);
    }
  }

  lemma {:induction false} FirstOfRecord(items: seq<Item>, id: Id, i: nat)
    requires i < |items| && DistinctItems(items)
    ensures FindByRecord(items, id) == Some(items[i]) <==> items[i].key.id == id && forall j :: 0 <= j < i ==> items[j].key.id != id
    decreases |items|
  {
    FindByRecordFinds(items, id);
    if i > 0 {
      assert items[0].opId != items[i].opId;
      if items[0].key.id != id {
        var rest := items[1..];
        FirstOfRecord(rest, id, i - 1);
        assert rest[i - 1] == items[i];
        assert (forall j :: 0 <= j < i - 1 ==> rest[j].key.id != id) <==> forall j :: 1 <= j < i ==> items[j].key.id != id by {
          if forall j :: 0 <= j < i - 1 ==> rest[j].key.id != id {
            assert forall j :: 1 <= j < i ==> items[j] == rest[j - 1];
          }
        }
      }
    }
  }

  /** Fewer items are still filed under their records and current. */
  lemma Remains(q: Queue, q1: Queue, items: seq<Item>)
    requires Current(q, items) && (forall j :: j in q ==> q[j].key == j)
    requires forall j :: j in q1 ==> At(q1, j) == At(q, j)
    ensures Current(q1, items) && (forall j :: j in q1 ==> q1[j].key == j)
  {
    forall j | j in q1 ensures j in q && q1[j] == q[j] {
      assert At(q1, j) == At(q, j);
    }
  }
}
