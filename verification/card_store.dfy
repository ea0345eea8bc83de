// Card operations: memory first, then one storage transaction for the row and its outbox operation,
// and memory rolled back when the transaction aborts. The cached media totals follow.

module CardStore {
  import opened SyncTypes
  import opened Outbox
  import opened CardData
  import opened MediaStats
  import opened StudyMemory
  import opened Rollback

  /** The outbox after one operation per card. */
  function EnqueueAll(q: Queue, inFlight: set<Id>, cards: seq<Card>, opIds: seq<Id>, now: Time): Queue
    requires |opIds| == |cards|
  {
    if cards == [] then q
    else
      var n := |cards| - 1;
      Enqueue(EnqueueAll(q, inFlight, cards[..n], opIds[..n], now), inFlight, Key(Cards, cards[n].id), Upsert, opIds[n], now)
  }

  /** The item of a listed card: an upsert under the op id of the card's last occurrence, with all attempts
      left and due at once. */
  predicate IsQueuedFor(item: Item, id: Id, opId: Id) {
    item.key == Key(Cards, id) && item.operation == Upsert && item.opId == opId && item.attempts == 0 && item.nextRetryAt == 0
  }

  /** The age of a newly queued upsert: that of the unsent upsert whose place it takes, or its own. */
  function AgeOf(before: Queue, inFlight: set<Id>, k: Key, now: Time): Time {
    if k in before && before[k].operation == Upsert && before[k].opId !in inFlight then before[k].createdAt else now
  }

  /** Record by record: every listed card is queued, and every other record's item is as before. */
  ghost predicate QueuedEach(before: Queue, inFlight: set<Id>, cards: seq<Card>, opIds: seq<Id>, now: Time, after: Queue)
    requires |opIds| == |cards|
  {
    && (forall id, i: nat :: LastOf(cards, id, i) ==>
          var k := Key(Cards, id);
          k in after && IsQueuedFor(after[k], id, opIds[i])
          && ((forall o :: o in opIds ==> o !in inFlight) ==> after[k].createdAt == AgeOf(before, inFlight, k, now)))
    && (forall k: Key :: k.table.Topics? || !Occurs(cards, k.id) ==> At(after, k) == At(before, k))
  }

  /** Card by card: every listed card is stored as listed last, and every other card is as before. */
  ghost predicate StoredEach(before: map<Id, Card>, cards: seq<Card>, after: map<Id, Card>) {
    && (forall id, i: nat :: LastOf(cards, id, i) ==> id in after && after[id] == cards[i])
    && (forall id :: !Occurs(cards, id) ==> Lookup(after, id) == Lookup(before, id))
  }

  lemma PutAllStoresEach(before: map<Id, Card>, cards: seq<Card>)
    ensures StoredEach(before, cards, PutAll(before, cards))
  {
    forall id
      ensures !Occurs(cards, id) ==> Lookup(PutAll(before, cards), id) == Lookup(before, id)
      ensures forall i: nat :: LastOf(cards, id, i) ==> Lookup(PutAll(before, cards), id) == Some(cards[i])
    {
      PutAllAt(before, cards, id);
    }
  }

  /** A record that is not listed keeps its item. */
  lemma {:induction false} EnqueueAllElsewhere(q: Queue, inFlight: set<Id>, cards: seq<Card>, opIds: seq<Id>, now: Time, k: Key)
    requires |opIds| == |cards| && (k.table.Topics? || !Occurs(cards, k.id))
    ensures At(EnqueueAll(q, inFlight, cards, opIds, now), k) == At(q, k)
  {
    if cards != [] {
      var n := |cards| - 1;
      assert Occurs(cards, cards[n].id);
      assert Occurs(cards[..n], k.id) ==> Occurs(cards, k.id);
      EnqueueAllElsewhere(q, inFlight, cards[..n], opIds[..n], now, k);
    }
  }

  /** A listed card has its upsert, under the op id it was listed with last. */
  lemma {:induction false} EnqueueAllAt(q: Queue, inFlight: set<Id>, cards: seq<Card>, opIds: seq<Id>, now: Time, id: Id, i: nat)
    requires |opIds| == |cards| && LastOf(cards, id, i)
    ensures var q1, k := EnqueueAll(q, inFlight, cards, opIds, now), Key(Cards, id);
      k in q1 && IsQueuedFor(q1[k], id, opIds[i])
      && ((forall o :: o in opIds ==> o !in inFlight) ==> q1[k].createdAt == AgeOf(q, inFlight, k, now))
  {
    var n := |cards| - 1;
    var q0, k := EnqueueAll(q, inFlight, cards[..n], opIds[..n], now), Key(Cards, id);
    if i < n {
      assert LastOf(cards[..n], id, i);
      EnqueueAllAt(q, inFlight, cards[..n], opIds[..n], now, id, i);
    } else if Occurs(cards[..n], id) {
      PutAllAt(map[], cards[..n], id);
      var j: nat :| LastOf(cards[..n], id, j);
      EnqueueAllAt(q, inFlight, cards[..n], opIds[..n], now, id, j);
    } else {
      EnqueueAllElsewhere(q, inFlight, cards[..n], opIds[..n], now, k);
      assert At(q0, k) == At(q, k);
    }
  }

  lemma EnqueueAllQueuesEach(q: Queue, inFlight: set<Id>, cards: seq<Card>, opIds: seq<Id>, now: Time)
    requires |opIds| == |cards|
    ensures QueuedEach(q, inFlight, cards, opIds, now, EnqueueAll(q, inFlight, cards, opIds, now))
  {
    var after := EnqueueAll(q, inFlight, cards, opIds, now);
    forall id, i: nat | LastOf(cards, id, i)
      ensures Key(Cards, id) in after && IsQueuedFor(after[Key(Cards, id)], id, opIds[i])
      ensures (forall o :: o in opIds ==> o !in inFlight) ==>
        after[Key(Cards, id)].createdAt == AgeOf(q, inFlight, Key(Cards, id), now)
    {
      EnqueueAllAt(q, inFlight, cards, opIds, now, id, i);
    }
    forall k: Key | k.table.Topics? || !Occurs(cards, k.id) ensures At(after, k) == At(q, k) {
      EnqueueAllElsewhere(q, inFlight, cards, opIds, now, k);
    }
  }

  function Stamped(cards: seq<Card>, level: int, now: Time): (r: seq<Card>)
    ensures |r| == |cards|
    ensures forall i :: 0 <= i < |r| ==> r[i] == cards[i].(level := level, updatedAt := now)
  {
    seq(|cards|, i requires 0 <= i < |cards| => cards[i].(level := level, updatedAt := now))
  }

  /** The cards without those of one topic. */
  function WithoutTopic(cards: map<Id, Card>, topicId: Id): map<Id, Card> {
    map id | id in cards && cards[id].topicId != topicId :: cards[id]
  }

  class Store {
    const memory: Memory
    const totals: StatsRow
    var topics: map<Id, TopicRow>
    var cards: map<Id, Card>
    var queue: Queue
    var inFlight: set<Id>

    /** Memory mirrors storage, and the cached totals are what a full scan would find. */
    ghost predicate Valid()
      reads this, memory, totals
    {
      && memory.Valid() && memory.cards == cards && memory.topics == topics
      && totals.Valid() && totals.held == HoldingsOf(cards, totals.embedded)
    }

    constructor (embedded: Measure)
      requires IsCount(embedded)
      ensures Valid() && cards == map[] && queue == map[] && fresh(memory) && fresh(totals)
    {
      memory := new Memory();
      totals := new StatsRow(embedded);
      topics, cards, queue, inFlight := map[], map[], map[], {};
      new;
      assert HoldingsOf(cards, embedded) == map[];
    }

    /** The outbox operation of the transaction. */
    method PutQueueOp(id: Id, operation: Operation, opId: Id, now: Time)
      modifies `queue
      ensures queue == Enqueue(old(queue), inFlight, Key(Cards, id), operation, opId, now)
    {
      queue := Enqueue(queue, inFlight, Key(Cards, id), operation, opId, now);
    }

    /** The committed transaction of a put: the row and its outbox operation; then the totals. */
    method CommitPut(card: Card, previous: Option<Card>, opId: Id, now: Time)
      requires totals.Valid() && totals.held == HoldingsOf(cards, totals.embedded) && previous == Lookup(cards, card.id)
      requires forall id :: id in cards ==> cards[id].id == id
      modifies `cards, `queue, totals
      ensures totals.Valid() && totals.held == HoldingsOf(cards, totals.embedded) && cards == old(cards)[card.id := card]
      ensures queue == Enqueue(old(queue), inFlight, Key(Cards, card.id), Upsert, opId, now)
    {
      FollowsPut(cards, card, totals.embedded);
      totals.RecordUpsert(previous, card);
      cards := cards[card.id := card];
      PutQueueOp(card.id, Upsert, opId, now);
    }

    method CommitDelete(id: Id, previous: Option<Card>, opId: Id, now: Time)
      requires totals.Valid() && totals.held == HoldingsOf(cards, totals.embedded) && previous == Lookup(cards, id)
      requires forall id :: id in cards ==> cards[id].id == id
      modifies `cards, `queue, totals
      ensures totals.Valid() && totals.held == HoldingsOf(cards, totals.embedded) && cards == old(cards) - {id}
      ensures queue == Enqueue(old(queue), inFlight, Key(Cards, id), Delete, opId, now)
    {
      if previous.Some? {
        FollowsRemove(cards, id, totals.embedded);
        totals.RecordDelete(previous.value);
        cards := cards - {id};
      } else {
        DropAbsent(cards, id);
      }
      PutQueueOp(id, Delete, opId, now);
    }

    method CreateCard(card: Card, opId: Id, now: Time, aborts: bool) returns (ok: bool)
      requires Valid()
      modifies `cards, `queue, memory, totals
      ensures Valid()
      ensures ok <==> !aborts && card.id !in old(cards)
      ensures cards == if ok then old(cards)[card.id := card] else old(cards)
      ensures queue == if ok then Enqueue(old(queue), inFlight, Key(Cards, card.id), Upsert, opId, now) else old(queue)
    {
      var previous := memory.PutCard(card);
      ok := !aborts && card.id !in cards;
      if ok {
        CommitPut(card, None, opId, now);
      } else {
        memory.RestoreCard(card.id, previous);
        RestoreUndoesPut(cards, card.id, card);
      }
    }

    method UpdateCard(card: Card, opId: Id, now: Time, aborts: bool) returns (ok: bool)
      requires Valid()
      modifies `cards, `queue, memory, totals
      ensures Valid() && ok == !aborts
      ensures cards == if ok then old(cards)[card.id := card.(updatedAt := now)] else old(cards)
      ensures queue == if ok then Enqueue(old(queue), inFlight, Key(Cards, card.id), Upsert, opId, now) else old(queue)
    {
      var next := card.(updatedAt := now);
      var previous := memory.PutCard(next);
      ok := !aborts;
      if ok {
        CommitPut(next, previous, opId, now);
      } else {
        memory.RestoreCard(next.id, previous);
        RestoreUndoesPut(cards, next.id, next);
      }
    }

    method DeleteCardById(id: Id, opId: Id, now: Time, aborts: bool) returns (ok: bool)
      requires Valid()
      modifies `cards, `queue, memory, totals
      ensures Valid() && ok == !aborts
      ensures cards == if ok then old(cards) - {id} else old(cards)
      ensures queue == if ok then Enqueue(old(queue), inFlight, Key(Cards, id), Delete, opId, now) else old(queue)
    {
      var previous := memory.DeleteCard(id);
      ok := !aborts;
      if ok {
        CommitDelete(id, previous, opId, now);
      } else {
        memory.RestoreCard(id, previous);
        RestoreUndoesDelete(cards, id);
      }
    }

    // ----- several cards in one transaction -----

    /** Puts cards in memory one by one and remembers what each replaced. */
    method PutInMemory(next: seq<Card>) returns (befores: seq<Option<Card>>)
      requires memory.Valid()
      modifies memory
      ensures memory.Valid() && memory.topics == old(memory.topics)
      ensures memory.cards == PutAll(old(memory.cards), next) && befores == Befores(old(memory.cards), next)
    {
      befores := [];
      for i := 0 to |next|
        invariant memory.Valid() && memory.topics == old(memory.topics)
        invariant memory.cards == PutAll(old(memory.cards), next[..i]) && befores == Befores(old(memory.cards), next[..i])
      {
        assert next[..i + 1][..i] == next[..i];
        var previous := memory.PutCard(next[i]);
        befores := befores + [previous];
      }
      assert next[..|next|] == next;
    }

    /** Restores, first to last, what each put replaced. */
    method RestoreInMemory(next: seq<Card>, befores: seq<Option<Card>>)
      requires memory.Valid() && |befores| == |next|
      requires forall i :: 0 <= i < |next| && befores[i].Some? ==> befores[i].value.id == next[i].id
      modifies memory
      ensures memory.Valid() && memory.topics == old(memory.topics)
      ensures memory.cards == RestoreAll(old(memory.cards), next, befores)
    {
      for i := 0 to |next|
        invariant memory.Valid() && memory.topics == old(memory.topics)
        invariant memory.cards == RestoreAll(old(memory.cards), next[..i], befores[..i])
      {
        assert next[..i + 1][..i] == next[..i] && befores[..i + 1][..i] == befores[..i];
        memory.RestoreCard(next[i].id, befores[i]);
      }
      assert next[..|next|] == next && befores[..|befores|] == befores;
    }

    /** Rows and outbox operations of several cards, all or nothing. */
    method PutAllCards(next: seq<Card>, opIds: seq<Id>, now: Time)
      requires |opIds| == |next|
      modifies `cards, `queue
      ensures cards == PutAll(old(cards), next) && StoredEach(old(cards), next, cards)
      ensures QueuedEach(old(queue), inFlight, next, opIds, now, queue)
    {
      for i := 0 to |next|
        invariant cards == PutAll(old(cards), next[..i]) && queue == old(queue)
      {
        assert next[..i + 1][..i] == next[..i];
        cards := cards[next[i].id := next[i]];
      }
      assert next[..|next|] == next;
      for i := 0 to |next|
        invariant cards == PutAll(old(cards), next) && queue == EnqueueAll(old(queue), inFlight, next[..i], opIds[..i], now)
      {
        assert next[..i + 1][..i] == next[..i] && opIds[..i + 1][..i] == opIds[..i];
        queue := Enqueue(queue, inFlight, Key(Cards, next[i].id), Upsert, opIds[i], now);
      }
      assert next[..|next|] == next && opIds[..|opIds|] == opIds;
      PutAllStoresEach(old(cards), next);
      EnqueueAllQueuesEach(old(queue), inFlight, next, opIds, now);
    }

    /** Moves cards to another level. An abort leaves storage and outbox alone and rolls memory back:
        exactly, if and only if no id comes twice (see `RollbackExactIff`). */
    method UpdateCardsLevelBulk(moved: seq<Card>, level: int, opIds: seq<Id>, now: Time, aborts: bool) returns (ok: bool)
      requires Valid() && |opIds| == |moved|
      modifies `cards, `queue, memory
      ensures ok == (!aborts || moved == []) && memory.Valid()
      ensures ok ==> StoredEach(old(cards), Stamped(moved, level, now), cards) && memory.cards == cards
      ensures ok ==> QueuedEach(old(queue), inFlight, Stamped(moved, level, now), opIds, now, queue)
      ensures !ok ==> cards == old(cards) && queue == old(queue) && memory.cards == RolledBack(cards, Stamped(moved, level, now))
      ensures !ok && DistinctIds(moved) ==> Valid()
      ensures ok && old(SameMedia(cards, Stamped(moved, level, now), totals.embedded)) ==> Valid()
    {
      if moved == [] {
        assert Stamped(moved, level, now) == [];
        return true;
      }
      var next := Stamped(moved, level, now);
      var befores := PutInMemory(next);
      if aborts {
        BeforesFit(old(memory.cards), next);
        RestoreInMemory(next, befores);
        if DistinctIds(moved) { DistinctRollsBack(old(cards), next); }
        return false;
      }
      if SameMedia(cards, next, totals.embedded) { SameMediaKept(cards, next, totals.embedded); }
      PutAllCards(next, opIds, now);
      return true;
    }

    // ----- the pull path -----

    /** A pulled card: memory, then storage; memory is rolled back when the write fails. */
    method PutLocalCard(card: Card, aborts: bool) returns (ok: bool)
      requires Valid()
      modifies `cards, memory, totals
      ensures Valid() && ok == !aborts
      ensures cards == if ok then old(cards)[card.id := card] else old(cards)
    {
      var previous := memory.PutCard(card);
      ok := !aborts;
      if ok {
        FollowsPut(cards, card, totals.embedded);
        totals.RecordUpsert(previous, card);
        cards := cards[card.id := card];
      } else {
        memory.RestoreCard(card.id, previous);
        RestoreUndoesPut(cards, card.id, card);
      }
    }

    /** A pulled card delete: memory, then storage and totals; memory is restored when the write fails. */
    method DeleteLocalCard(id: Id, aborts: bool) returns (ok: bool)
      requires Valid()
      modifies `cards, memory, totals
      ensures Valid() && ok == !aborts
      ensures cards == if ok then old(cards) - {id} else old(cards)
    {
      var previous := memory.DeleteCard(id);
      ok := !aborts;
      if ok {
        if previous.Some? {
          FollowsRemove(cards, id, totals.embedded);
          totals.RecordDelete(previous.value);
          cards := cards - {id};
        } else {
          DropAbsent(cards, id);
        }
      } else {
        memory.RestoreCard(id, previous);
        RestoreUndoesDelete(cards, id);
      }
    }

    /** A pulled topic: memory, then storage; memory is rolled back when the write fails. */
    method PutLocalTopic(topic: TopicRow, aborts: bool) returns (ok: bool)
      requires Valid()
      modifies `topics, memory
      ensures Valid() && ok == !aborts
      ensures topics == if ok then old(topics)[topic.id := topic] else old(topics)
    {
      var previous := memory.PutTopic(topic);
      ok := !aborts;
      if ok {
        topics := topics[topic.id := topic];
      } else {
        memory.RestoreTopic(topic.id, previous);
        RestoreUndoesPut(topics, topic.id, topic);
      }
    }

    /** Deletes a topic and its cards, from memory and then, row by row, from storage, and frees their
        media; an abort restores the topic and every card. */
    method DeleteLocalTopic(topicId: Id, aborts: bool) returns (ok: bool)
      requires Valid()
      modifies `topics, `cards, memory, totals
      ensures Valid() && ok == !aborts
      ensures topics == if ok then old(topics) - {topicId} else old(topics)
      ensures cards == if ok then WithoutTopic(old(cards), topicId) else old(cards)
    {
      var previousCards := memory.CardsByTopic(topicId);
      var previousTopic := memory.DeleteTopic(topicId);
      ForgetCards(previousCards.Keys);
      ok := !aborts;
      if ok {
        topics := topics - {topicId};
        DropCards(previousCards.Keys);
        BucketIsTheRest(old(cards), topicId);
      } else {
        memory.RestoreTopic(topicId, previousTopic);
        RestoreCards(previousCards);
        assert memory.topics == topics;
        BucketComesBack(cards, topicId);
      }
    }

    method ForgetCards(ids: set<Id>)
      requires memory.Valid()
      modifies memory
      ensures memory.Valid() && memory.topics == old(memory.topics) && memory.cards == old(memory.cards) - ids
    {
      var rest := ids;
      while rest != {}
        invariant rest <= ids && memory.Valid() && memory.topics == old(memory.topics)
        invariant memory.cards == old(memory.cards) - (ids - rest)
        decreases |rest|
      {
        var id :| id in rest;
        var _ := memory.DeleteCard(id);
        DropOneMore(old(memory.cards), ids, rest, id);
        rest := rest - {id};
      }
      assert ids - {} == ids;
    }

    method RestoreCards(previous: map<Id, Card>)
      requires memory.Valid() && forall id :: id in previous ==> previous[id].id == id
      modifies memory
      ensures memory.Valid() && memory.topics == old(memory.topics) && memory.cards == old(memory.cards) + previous
    {
      var rest := previous.Keys;
      NothingBack(memory.cards, previous);
      while rest != {}
        invariant rest <= previous.Keys && memory.Valid() && memory.topics == old(memory.topics)
        invariant memory.cards == BackIn(old(memory.cards), previous, rest)
        decreases |rest|
      {
        var id :| id in rest;
        memory.RestoreCard(id, Some(previous[id]));
        AddOneMore(old(memory.cards), previous, rest, id);
        rest := rest - {id};
      }
      AllBack(old(memory.cards), previous);
    }

    /** The cursor loop: one row after the other is deleted, what it embeds subtracted from the change. */
    method DropEach(ids: set<Id>) returns (delta: Media, ghost order: seq<Id>)
      requires ids <= cards.Keys
      modifies `cards
      ensures cards == old(cards) - ids
      ensures IsOrderOf(order, ids) && delta == Freed(old(cards), order, totals.embedded)
    {
      var rest := ids;
      delta, order := NO_MEDIA, [];
      while rest != {}
        invariant rest <= ids && LeftAfter(old(cards), ids, rest, cards)
        invariant IsOrderOf(order, ids - rest) && delta == Freed(old(cards), order, totals.embedded)
        decreases |rest|
      {
        var id :| id in rest;
        OrderGrows(order, ids, rest, id);
        FreedGrows(old(cards), order, id, totals.embedded);
        delta := AddMedia(delta, SubMedia(NO_MEDIA, totals.embedded(cards[id])));
        cards := cards - {id};
        order := order + [id];
        rest := rest - {id};
      }
      AllLeft(old(cards), ids, cards);
    }

    /** Deletes rows and books what they free at the end. */
    method DropCards(ids: set<Id>)
      requires totals.Valid() && totals.held == HoldingsOf(cards, totals.embedded) && ids <= cards.Keys
      modifies `cards, totals
      ensures totals.Valid() && totals.held == HoldingsOf(cards, totals.embedded) && cards == old(cards) - ids
    {
      ghost var before := cards;
      var delta, order := DropEach(ids);
      FreedIsCollected(before, order, ids, totals.embedded);
      totals.AdjustTo(delta, HoldingsOf(cards, totals.embedded));
    }
  }

  /** The ids of a set in some order, each once. */
  ghost predicate IsOrderOf(order: seq<Id>, ids: set<Id>) {
    && (forall id :: id in order <==> id in ids)
    && (forall i, j :: 0 <= i < j < |order| ==> order[i] != order[j])
  }

  lemma OrderGrows(order: seq<Id>, ids: set<Id>, rest: set<Id>, id: Id)
    requires rest <= ids && id in rest && IsOrderOf(order, ids - rest)
    ensures IsOrderOf(order + [id], ids - (rest - {id}))
  {
    assert id !in order;
  }

  /** The change collected over deleted cards. */
  function Freed(cards: map<Id, Card>, order: seq<Id>, embedded: Measure): Media
    requires forall id :: id in order ==> id in cards
  {
    if order == [] then NO_MEDIA
    else
      var n := |order| - 1;
      AddMedia(Freed(cards, order[..n], embedded), SubMedia(NO_MEDIA, embedded(cards[order[n]])))
  }

  lemma FreedGrows(cards: map<Id, Card>, order: seq<Id>, id: Id, embedded: Measure)
    requires id in cards && forall x :: x in order ==> x in cards
    ensures Freed(cards, order + [id], embedded)
         == AddMedia(Freed(cards, order, embedded), SubMedia(NO_MEDIA, embedded(cards[id])))
  {
    assert (order + [id])[..|order|] == order;
  }

  /** The collected change leads from the scan before to the scan after. */
  lemma {:induction false} FreedIsCollected(cards: map<Id, Card>, order: seq<Id>, ids: set<Id>, embedded: Measure)
    requires IsOrderOf(order, ids) && ids <= cards.Keys
    ensures Collected(HoldingsOf(cards, embedded), HoldingsOf(cards - ids, embedded), Freed(cards, order, embedded))
    decreases |order|
  {
    if order == [] {
      DropNone(cards, ids);
      NothingCollected(HoldingsOf(cards, embedded));
    } else {
      var n := |order| - 1;
      var id, fewer := order[n], ids - {order[n]};
      assert order == order[..n] + [id];
      assert IsOrderOf(order[..n], fewer);
      FreedIsCollected(cards, order[..n], fewer, embedded);
      DropLast(cards, ids, id);
      FollowsRemove(cards - fewer, id, embedded);
      CollectRemove(HoldingsOf(cards, embedded), HoldingsOf(cards - fewer, embedded), id, Freed(cards, order[..n], embedded));
    }
  }

  lemma DropNone(cards: map<Id, Card>, ids: set<Id>)
    requires ids == {}
    ensures cards - ids == cards
  {
  }

  lemma DropLast(cards: map<Id, Card>, ids: set<Id>, id: Id)
    requires id in ids && ids <= cards.Keys
    ensures cards - (ids - {id}) - {id} == cards - ids
    ensures id in cards - (ids - {id}) && (cards - (ids - {id}))[id] == cards[id]
  {
  }

  /** All but the dropped ids are there, as they were. */
  ghost predicate LeftAfter(start: map<Id, Card>, ids: set<Id>, rest: set<Id>, left: map<Id, Card>) {
    && (forall id :: id in left <==> id in start && (id !in ids || id in rest))
    && (forall id :: id in left ==> left[id] == start[id])
  }

  lemma AllLeft(start: map<Id, Card>, ids: set<Id>, left: map<Id, Card>)
    requires LeftAfter(start, ids, {}, left)
    ensures left == start - ids
  {
  }

  /** Every card replaces a stored one that embeds the same media. */
  ghost predicate SameMedia(cards: map<Id, Card>, next: seq<Card>, embedded: Measure) {
    forall i :: 0 <= i < |next| ==> next[i].id in cards && embedded(next[i]) == embedded(cards[next[i].id])
  }

  lemma {:induction false} SameMediaKept(cards: map<Id, Card>, next: seq<Card>, embedded: Measure)
    requires SameMedia(cards, next, embedded)
    ensures HoldingsOf(PutAll(cards, next), embedded) == HoldingsOf(cards, embedded)
  {
    if next != [] {
      var n := |next| - 1;
      assert SameMedia(cards, next[..n], embedded);
      SameMediaKept(cards, next[..n], embedded);
      FollowsPut(PutAll(cards, next[..n]), next[n], embedded);
    }
  }

  lemma DropOneMore(cards: map<Id, Card>, ids: set<Id>, rest: set<Id>, id: Id)
    requires rest <= ids && id in rest
    ensures cards - (ids - rest) - {id} == cards - (ids - (rest - {id}))
  {
  }

  /** The cards with all of `previous` put back but `rest`. */
  function BackIn(cards: map<Id, Card>, previous: map<Id, Card>, rest: set<Id>): map<Id, Card> {
    cards + (previous - rest)
  }

  lemma NothingBack(cards: map<Id, Card>, previous: map<Id, Card>)
    ensures BackIn(cards, previous, previous.Keys) == cards
  {
  }

  lemma AllBack(cards: map<Id, Card>, previous: map<Id, Card>)
    ensures BackIn(cards, previous, {}) == cards + previous
  {
    assert previous - {} == previous;
  }

  lemma AddOneMore(cards: map<Id, Card>, previous: map<Id, Card>, rest: set<Id>, id: Id)
    requires id in rest && id in previous
    ensures BackIn(cards, previous, rest)[id := previous[id]] == BackIn(cards, previous, rest - {id})
  {
  }

  lemma BucketIsTheRest(cards: map<Id, Card>, topicId: Id)
    ensures cards - BucketOf(cards, topicId).Keys == WithoutTopic(cards, topicId)
  {
  }

  lemma BucketComesBack(cards: map<Id, Card>, topicId: Id)
    ensures (cards - BucketOf(cards, topicId).Keys) + BucketOf(cards, topicId) == cards
  {
  }

  lemma {:induction false} BeforesFit(m: map<Id, Card>, next: seq<Card>)
    requires forall id :: id in m ==> m[id].id == id
    ensures forall i :: 0 <= i < |next| && Befores(m, next)[i].Some? ==> Befores(m, next)[i].value.id == next[i].id
  {
    forall i | 0 <= i < |next| && Befores(m, next)[i].Some? ensures Befores(m, next)[i].value.id == next[i].id {
      BeforesAt(m, next, i);
      PutAllFits(m, next[..i]);
    }
  }

  lemma {:induction false} PutAllFits(m: map<Id, Card>, next: seq<Card>)
    requires forall id :: id in m ==> m[id].id == id
    ensures forall id :: id in PutAll(m, next) ==> PutAll(m, next)[id].id == id
  {
    if next != [] {
      PutAllFits(m, next[..|next| - 1]);
    }
  }

  /** Putting back what a put replaced undoes the put. */
  lemma RestoreUndoesPut<T>(entries: map<Id, T>, id: Id, value: T)
    ensures Restored(entries[id := value], id, Lookup(entries, id)) == entries
  {
  }

  lemma RestoreUndoesDelete(cards: map<Id, Card>, id: Id)
    ensures Restored(cards - {id}, id, Lookup(cards, id)) == cards
  {
  }

  lemma FollowsPut(cards: map<Id, Card>, card: Card, embedded: Measure)
    ensures HoldingsOf(cards[card.id := card], embedded) == HoldingsOf(cards, embedded)[card.id := embedded(card)]
    ensures HeldAt(HoldingsOf(cards, embedded), card.id) == if card.id in cards then embedded(cards[card.id]) else NO_MEDIA
  {
  }

  lemma FollowsRemove(cards: map<Id, Card>, id: Id, embedded: Measure)
    ensures HoldingsOf(cards - {id}, embedded) == HoldingsOf(cards, embedded) - {id}
    ensures HeldAt(HoldingsOf(cards, embedded), id) == if id in cards then embedded(cards[id]) else NO_MEDIA
  {
  }
}
