// Why draining the outbox stops: every answered batch uses up attempts.

module Drain {
  import opened SyncTypes
  import opened MapSums
  import opened Outbox
  import opened PushBatch
  import opened Validation

  /** Attempts each item has left. */
  function Remaining(q: Queue): map<Key, int> {
    map k | k in q :: MAX_ATTEMPTS - q[k].attempts
  }

  ghost function AttemptsLeft(q: Queue): int { Sum(Remaining(q)) }

  /** Items are filed under their record and never run out of attempts while queued. */
  ghost predicate Alive(q: Queue) {
    forall k :: k in q ==> q[k].key == k && q[k].attempts < MAX_ATTEMPTS
  }

  ghost predicate TakenFrom(q: Queue, items: seq<Item>) {
    DistinctItems(items) && forall item :: item in items ==> item.key in q && q[item.key] == item
  }

  /** The ack has a word on the operation. */
  predicate Answers(items: seq<Item>, ack: Ack, item: Item) {
    Settles(items, ack, item) || IsRejected(ack, item.opId)
  }

  lemma FewerAttempts(a: Queue, b: Queue)
    requires Alive(b) && forall k :: k in a ==> k in b && a[k].attempts >= b[k].attempts
    ensures AttemptsLeft(a) <= AttemptsLeft(b)
    ensures (exists k :: k in b && (k in a ==> a[k].attempts > b[k].attempts)) ==> AttemptsLeft(a) < AttemptsLeft(b)
  {
    SumMonotone(Remaining(a), Remaining(b));
    if exists k :: k in b && (k in a ==> a[k].attempts > b[k].attempts) {
      var k :| k in b && (k in a ==> a[k].attempts > b[k].attempts);
      assert if k in Remaining(a) then Remaining(a)[k] < Remaining(b)[k] else Remaining(b)[k] > 0;
    }
  }

  lemma LeftNonNegative(q: Queue)
    requires Alive(q)
    ensures AttemptsLeft(q) >= 0
  {
    SumMonotone(map[], Remaining(q));
  }

  /** With the outbox unchanged since the batch was built, an ack lowers the attempts left exactly when
      it has a word on any of the batch's operations; it never raises them. */
  lemma AckLowersAttempts(q: Queue, items: seq<Item>, ack: Ack, wake: Id -> Time)
    requires Alive(q) && TakenFrom(q, items)
    ensures var after := ApplyAck(q, items, ack, wake);
      Alive(after) && AttemptsLeft(after) <= AttemptsLeft(q)
      && (AttemptsLeft(after) < AttemptsLeft(q) <==> exists item :: item in items && Answers(items, ack, item))
  {
    var after := ApplyAck(q, items, ack, wake);
    forall k ensures At(after, k) == Fate(q, items, ack, wake, k) {
      AckIsFate(q, items, ack, wake, k);
    }
    forall k | k in after ensures k in q && after[k].key == k && q[k].attempts <= after[k].attempts < MAX_ATTEMPTS {
      assert At(after, k).Some?;
    }
    FewerAttempts(after, q);
    if exists item :: item in items && Answers(items, ack, item) {
      var item :| item in items && Answers(items, ack, item);
      assert At(after, item.key) == Fate(q, items, ack, wake, item.key);
    } else {
      forall k | k in q ensures k in after && after[k] == q[k] {
        assert At(after, k) == Fate(q, items, ack, wake, k);
      }
      assert after == q;
    }
  }

  /** Naming every operation, as the server's ack does, answers every operation. */
  lemma NamedIsAnswered(items: seq<Item>, ack: Ack, item: Item)
    requires Names(ack, item.opId)
    ensures Answers(items, ack, item)
  {
    if item.opId !in ack.accepted {
      var i :| 0 <= i < |ack.rejected| && RejectedIds(ack.rejected)[i] == item.opId;
      assert ack.rejected[i] in ack.rejected;
    }
  }

  /** An empty batch: every item waits for its retry time, or was dropped for want of a row. */
  lemma {:induction false} EmptyBatchMeansWaiting(items: seq<Item>, rows: map<Key, Local>, now: Time, size: Mutation -> nat, acc: Batch)
    requires acc.mutations == [] && BuildFrom(items, rows, now, size, acc).mutations == []
    ensures forall item :: item in items ==> item.nextRetryAt > now || item.key in BuildFrom(items, rows, now, size, acc).dropped
    ensures acc.dropped <= BuildFrom(items, rows, now, size, acc).dropped
    decreases |items|
  {
    if items != [] {
      assert items == [items[0]] + items[1..];
      if items[0].nextRetryAt > now {
        EmptyBatchMeansWaiting(items[1..], rows, now, size, acc);
      } else if MutationFor(items[0], rows).None? {
        EmptyBatchMeansWaiting(items[1..], rows, now, size, acc.(dropped := acc.dropped + {items[0].key}));
      } else {
        var m := MutationFor(items[0], rows).value;
        var acc1 := Batch([m], acc.items + [items[0]], acc.bytes + size(m) + 1, acc.dropped);
        assert acc.mutations + [m] == [m];
        BuildGrows(items[1..], rows, now, size, acc1);
        assert false;
      }
    }
  }

  lemma {:induction false} BuildGrows(items: seq<Item>, rows: map<Key, Local>, now: Time, size: Mutation -> nat, acc: Batch)
    ensures |BuildFrom(items, rows, now, size, acc).mutations| >= |acc.mutations|
    decreases |items|
  {
    if items != [] {
      BuildGrows(items[1..], rows, now, size, acc);
      BuildGrows(items[1..], rows, now, size, acc.(dropped := acc.dropped + {items[0].key}));
      var m := MutationFor(items[0], rows);
      if m.Some? {
        BuildGrows(items[1..], rows, now, size,
          Batch(acc.mutations + [m.value], acc.items + [items[0]], acc.bytes + size(m.value) + 1, acc.dropped));
      }
    }
  }
}
