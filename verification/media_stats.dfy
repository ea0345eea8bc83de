// The cached totals of embedded media against a full scan.

module MediaStats {
  import opened SyncTypes
  import opened MapSums
  import opened CardData

  /** The stored cards seen as what each of them embeds. */
  type Holdings = map<Id, Media>

  /** What a full scan finds. */
  ghost function Total(h: Holdings): Media
    decreases |h|, 1
  {
    if h == map[] then NO_MEDIA else TotalFrom(h, AnyKey(h))
  }

  /** The same, beginning with one given card. */
  ghost function TotalFrom(h: Holdings, id: Id): Media
    requires id in h
    decreases |h|, 0
  {
    SmallerWithout(h, id);
    AddMedia(h[id], Total(h - {id}))
  }

  /** Any card may be scanned first. */
  lemma {:induction false} ScanAnyFirst(h: Holdings, id: Id)
    requires id in h
    ensures Total(h) == TotalFrom(h, id)
    decreases |h|
  {
    var first := AnyKey(h);
    if first != id {
      SmallerWithout(h, first);
      SmallerWithout(h, id);
      ScanAnyFirst(h - {first}, id);
      ScanAnyFirst(h - {id}, first);
      DropTwo(h, first, id);
      SwapFirst(h[first], h[id], Total(h - {first} - {id}));
    }
  }

  lemma SwapFirst(a: Media, b: Media, rest: Media)
    ensures AddMedia(a, AddMedia(b, rest)) == AddMedia(b, AddMedia(a, rest))
  {
  }

  lemma PutThenDrop<K, V>(h: map<K, V>, id: K, m: V)
    ensures h[id := m] - {id} == h - {id}
  {
  }

  lemma DropAbsent<K, V>(h: map<K, V>, id: K)
    requires id !in h
    ensures h - {id} == h
  {
  }

  lemma DropTwo<K, V>(h: map<K, V>, a: K, b: K)
    ensures h - {a} - {b} == h - {b} - {a}
  {
  }

  function HeldAt(h: Holdings, id: Id): Media {
    if id in h then h[id] else NO_MEDIA
  }

  /** The total is that of the other cards and the card's own. */
  lemma TotalSplit(h: Holdings, id: Id)
    ensures IsSum(Total(h), HeldAt(h, id), Total(h - {id}))
  {
    if id in h {
      ScanAnyFirst(h, id);
    } else {
      DropAbsent(h, id);
    }
  }

  /** Putting a card changes the scan by what is put less what was there. */
  lemma TotalPut(h: Holdings, id: Id, m: Media)
    ensures IsSum(Total(h[id := m]), Total(h), SubMedia(m, HeldAt(h, id)))
  {
    PutThenDrop(h, id, m);
    TotalSplit(h, id);
    TotalSplit(h[id := m], id);
  }

  lemma TotalRemove(h: Holdings, id: Id)
    ensures IsSum(Total(h - {id}), Total(h), SubMedia(NO_MEDIA, HeldAt(h, id)))
  {
    TotalSplit(h, id);
  }

  ghost predicate NonNegative(h: Holdings) {
    forall id :: id in h ==> AtLeastNone(h[id])
  }

  lemma {:induction false} TotalNonNegative(h: Holdings)
    requires NonNegative(h)
    ensures AtLeastNone(Total(h))
    decreases |h|
  {
    if h != map[] {
      var id := AnyKey(h);
      SmallerWithout(h, id);
      TotalNonNegative(h - {id});
    }
  }

  /** What is written back: never below zero. */
  function Clamped(m: Media): Media {
    Media(Max(0, m.bytes), Max(0, m.images), Max(0, m.audio))
  }

  /** How much a card embeds: `CardMedia`, or any other count that is never negative. */
  type Measure = Card -> Media

  ghost predicate IsCount(embedded: Measure) {
    forall card :: AtLeastNone(embedded(card))
  }

  lemma CardMediaIsCount()
    ensures IsCount(CardMedia)
  {
    forall card ensures AtLeastNone(CardMedia(card)) {
      CardNonNegative(card);
    }
  }

  /** The stored statistics row; `held` is what it accounts for. */
  class StatsRow {
    const embedded: Measure
    var stats: Media
    ghost var held: Holdings

    /** The cached totals are what a full scan would find. */
    ghost predicate Valid()
      reads this
    {
      IsCount(embedded) && stats == Total(held) && NonNegative(held)
    }

    constructor (embedded: Measure)
      requires IsCount(embedded)
      ensures Valid() && held == map[] && this.embedded == embedded
    {
      this.embedded := embedded;
      stats := NO_MEDIA;
      held := map[];
    }

    /** Adds a change to the stored totals, clamped at zero. */
    method Adjust(delta: Media)
      modifies `stats
      ensures stats == if delta == NO_MEDIA then old(stats) else Clamped(AddMedia(old(stats), delta))
    {
      if delta == NO_MEDIA {
        return;
      }
      stats := Clamped(AddMedia(stats, delta));
    }

    /** A change collected over several cards: where it leads is again what a scan finds. */
    method AdjustTo(delta: Media, ghost after: Holdings)
      requires Valid() && NonNegative(after) && IsSum(Total(after), Total(held), delta)
      modifies this
      ensures Valid() && held == after
    {
      ScanFollows(held, after, delta);
      Adjust(delta);
      held := after;
    }

    /** A card was put: the totals follow the scan, and the clamp does nothing. */
    method RecordUpsert(previous: Option<Card>, next: Card)
      requires Valid() && HeldAt(held, next.id) == (if previous.Some? then embedded(previous.value) else NO_MEDIA)
      modifies this
      ensures Valid() && held == old(held)[next.id := embedded(next)]
    {
      var before := if previous.Some? then embedded(previous.value) else NO_MEDIA;
      var after := embedded(next);
      FollowPut(held, next.id, after);
      Adjust(SubMedia(after, before));
      held := held[next.id := after];
    }

    /** A card was deleted. */
    method RecordDelete(previous: Card)
      requires Valid() && HeldAt(held, previous.id) == embedded(previous)
      modifies this
      ensures Valid() && held == old(held) - {previous.id}
    {
      var before := embedded(previous);
      FollowRemove(held, previous.id);
      Adjust(SubMedia(NO_MEDIA, before));
      held := held - {previous.id};
    }
  }

  /** A change that leads to a total of nothing below zero is stored as it is. */
  lemma ClampIdle(stats: Media, delta: Media, after: Media)
    requires IsSum(after, stats, delta) && AtLeastNone(after)
    ensures after == if delta == NO_MEDIA then stats else Clamped(AddMedia(stats, delta))
  {
  }

  /** What the stored totals become when the holdings change from one state to another. */
  ghost predicate Follows(h: Holdings, after: Holdings, delta: Media) {
    Total(after) == if delta == NO_MEDIA then Total(h) else Clamped(AddMedia(Total(h), delta))
  }

  lemma ScanFollows(h: Holdings, after: Holdings, delta: Media)
    requires NonNegative(after) && IsSum(Total(after), Total(h), delta)
    ensures Follows(h, after, delta)
  {
    TotalNonNegative(after);
    ClampIdle(Total(h), delta, Total(after));
  }

  /** Following a put keeps the totals equal to the scan; the clamp never fires. */
  lemma FollowPut(h: Holdings, id: Id, m: Media)
    requires NonNegative(h) && AtLeastNone(m)
    ensures NonNegative(h[id := m]) && Follows(h, h[id := m], SubMedia(m, HeldAt(h, id)))
  {
    var after, delta := h[id := m], SubMedia(m, HeldAt(h, id));
    assert NonNegative(after);
    assert Follows(h, after, delta) by {
      TotalPut(h, id, m);
      ScanFollows(h, after, delta);
    }
  }

  lemma FollowRemove(h: Holdings, id: Id)
    requires NonNegative(h)
    ensures NonNegative(h - {id}) && Follows(h, h - {id}, SubMedia(NO_MEDIA, HeldAt(h, id)))
  {
    TotalRemove(h, id);
    ScanFollows(h, h - {id}, SubMedia(NO_MEDIA, HeldAt(h, id)));
  }

  /** The change that leads from one state of the holdings to another. */
  ghost predicate Collected(h: Holdings, sofar: Holdings, delta: Media) {
    IsSum(Total(sofar), Total(h), delta)
  }

  lemma NothingCollected(h: Holdings)
    ensures Collected(h, h, NO_MEDIA)
  {
  }

  /** One card more taken out of a collected change. */
  lemma CollectRemove(h: Holdings, sofar: Holdings, id: Id, delta: Media)
    requires Collected(h, sofar, delta)
    ensures Collected(h, sofar - {id}, AddMedia(delta, SubMedia(NO_MEDIA, HeldAt(sofar, id))))
  {
    TotalRemove(sofar, id);
  }

  // ----- the full scan -----

  function HoldingsOf(cards: map<Id, Card>, embedded: Measure): Holdings {
    map id | id in cards :: embedded(cards[id])
  }

  lemma TotalEmpty()
    ensures Total(map[]) == NO_MEDIA
  {
  }

  lemma ScanStep(seen: Holdings, id: Id, m: Media, more: Holdings)
    requires id !in seen && more == seen[id := m]
    ensures Total(more) == AddMedia(Total(seen), m)
  {
    assert IsSum(Total(more), Total(seen), SubMedia(m, NO_MEDIA)) by { TotalPut(seen, id, m); }
  }

  /** The repair scan: whatever the order, it finds the total of all cards. */
  method Rebuild(cards: map<Id, Card>, embedded: Measure) returns (stats: Media)
    ensures stats == Total(HoldingsOf(cards, embedded))
  {
    stats := NO_MEDIA;
    var rest := cards.Keys;
    ghost var seen: Holdings := map[];
    TotalEmpty();
    while rest != {}
      invariant rest <= cards.Keys && stats == Total(seen)
      invariant seen.Keys == cards.Keys - rest && forall id :: id in seen ==> seen[id] == embedded(cards[id])
      decreases |rest|
    {
      var id :| id in rest;
      var media := embedded(cards[id]);
      ScanStep(seen, id, media, seen[id := media]);
      stats := AddMedia(stats, media);
      seen := seen[id := media];
      rest := rest - {id};
    }
    assert seen == HoldingsOf(cards, embedded);
  }
}
