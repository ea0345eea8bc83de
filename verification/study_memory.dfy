// The in-memory cache of topics and cards with its per-topic index.

module StudyMemory {
  import opened SyncTypes
  import opened CardData

  datatype TopicRow = TopicRow(id: Id, title: string, updatedAt: Time)

  /** The index a set of cards ought to have: one bucket per topic with cards, holding exactly those. */
  function IndexOf(cards: map<Id, Card>): map<Id, map<Id, Card>> {
    map t | t in (set id | id in cards :: cards[id].topicId) :: BucketOf(cards, t)
  }

  function BucketOf(cards: map<Id, Card>, topicId: Id): map<Id, Card> {
    map id | id in cards && cards[id].topicId == topicId :: cards[id]
  }

  function Lookup<V>(m: map<Id, V>, id: Id): Option<V> {
    if id in m then Some(m[id]) else None
  }

  /** A map with one entry put back to an earlier state. */
  function Restored<V>(m: map<Id, V>, id: Id, previous: Option<V>): map<Id, V> {
    if previous.None? then m - {id} else m[id := previous.value]
  }

  /** In the index every bucket is non-empty, and every card is in exactly its topic's bucket. */
  lemma IndexAgrees(cards: map<Id, Card>, t: Id, id: Id)
    ensures t in IndexOf(cards) ==> IndexOf(cards)[t] != map[]
    ensures (t in IndexOf(cards) && id in IndexOf(cards)[t]) <==> (id in cards && cards[id].topicId == t)
    ensures t in IndexOf(cards) && id in IndexOf(cards)[t] ==> IndexOf(cards)[t][id] == cards[id]
  {
    if t in IndexOf(cards) {
      var c :| c in cards && cards[c].topicId == t;
      assert c in BucketOf(cards, t);
    }
  }

  /** The entries by id, later ones over earlier ones. */
  function LoadedTopics(entries: seq<TopicRow>): map<Id, TopicRow> {
    if entries == [] then map[] else LoadedTopics(entries[..|entries| - 1])[entries[|entries| - 1].id := entries[|entries| - 1]]
  }

  function LoadedCards(entries: seq<Card>): map<Id, Card> {
    if entries == [] then map[] else LoadedCards(entries[..|entries| - 1])[entries[|entries| - 1].id := entries[|entries| - 1]]
  }

  /** Under each id that occurs, and under no other, the last entry that has it is loaded. */
  lemma {:induction false} LastTopicWins(entries: seq<TopicRow>, id: Id)
    ensures id in LoadedTopics(entries) <==> exists i :: 0 <= i < |entries| && entries[i].id == id
    ensures id in LoadedTopics(entries) ==>
      exists i :: 0 <= i < |entries| && entries[i] == LoadedTopics(entries)[id] && entries[i].id == id
                  && forall j :: i < j < |entries| ==> entries[j].id != id
  {
    if entries != [] {
      var n := |entries| - 1;
      LastTopicWins(entries[..n], id);
      if entries[n].id != id && id in LoadedTopics(entries) {
        var i :| 0 <= i < n && entries[..n][i] == LoadedTopics(entries[..n])[id] && entries[..n][i].id == id
                 && forall j :: i < j < n ==> entries[..n][j].id != id;
        forall j | i < j < |entries| ensures entries[j].id != id {
          if j < n { assert entries[..n][j].id != id; }
        }
        assert entries[i] == LoadedTopics(entries)[id];
      }
    }
  }

  lemma {:induction false} LastCardWins(entries: seq<Card>, id: Id)
    ensures id in LoadedCards(entries) <==> exists i :: 0 <= i < |entries| && entries[i].id == id
    ensures id in LoadedCards(entries) ==>
      exists i :: 0 <= i < |entries| && entries[i] == LoadedCards(entries)[id] && entries[i].id == id
                  && forall j :: i < j < |entries| ==> entries[j].id != id
  {
    if entries != [] {
      var n := |entries| - 1;
      LastCardWins(entries[..n], id);
      if entries[n].id != id && id in LoadedCards(entries) {
        var i :| 0 <= i < n && entries[..n][i] == LoadedCards(entries[..n])[id] && entries[..n][i].id == id
                 && forall j :: i < j < n ==> entries[..n][j].id != id;
        forall j | i < j < |entries| ensures entries[j].id != id {
          if j < n { assert entries[..n][j].id != id; }
        }
        assert entries[i] == LoadedCards(entries)[id];
      }
    }
  }

  class Memory {
    var topics: map<Id, TopicRow>
    var cards: map<Id, Card>
    var cardsByTopic: map<Id, map<Id, Card>>

    /** Everything is filed under its id, and the index is the one the cards ought to have. */
    ghost predicate Valid()
      reads this
    {
      && (forall id :: id in topics ==> topics[id].id == id)
      && (forall id :: id in cards ==> cards[id].id == id)
      && cardsByTopic == IndexOf(cards)
    }

    constructor ()
      ensures Valid() && topics == map[] && cards == map[]
    {
      topics, cards, cardsByTopic := map[], map[], map[];
    }

    method IndexCard(card: Card)
      modifies `cardsByTopic
      ensures cardsByTopic == old(cardsByTopic)[card.topicId :=
                (if card.topicId in old(cardsByTopic) then old(cardsByTopic)[card.topicId] else map[])[card.id := card]]
    {
      var bucket := map[];
      if card.topicId in cardsByTopic {
        bucket := cardsByTopic[card.topicId];
      }
      cardsByTopic := cardsByTopic[card.topicId := bucket[card.id := card]];
    }

    method UnindexCard(card: Card)
      modifies `cardsByTopic
      ensures cardsByTopic ==
        if card.topicId !in old(cardsByTopic) then old(cardsByTopic)
        else if old(cardsByTopic)[card.topicId] - {card.id} == map[] then old(cardsByTopic) - {card.topicId}
        else old(cardsByTopic)[card.topicId := old(cardsByTopic)[card.topicId] - {card.id}]
    {
      if card.topicId !in cardsByTopic {
        return;
      }
      var bucket := cardsByTopic[card.topicId] - {card.id};
      cardsByTopic := cardsByTopic[card.topicId := bucket];
      if |bucket| == 0 {
        cardsByTopic := cardsByTopic - {card.topicId};
      }
    }

    /** Stores a card and hands back the one it replaced. */
    method PutCard(card: Card) returns (previous: Option<Card>)
      requires Valid()
      modifies `cards, `cardsByTopic
      ensures Valid() && previous == Lookup(old(cards), card.id) && cards == old(cards)[card.id := card]
    {
      previous := Lookup(cards, card.id);
      if previous.Some? {
        UnindexCard(previous.value);
        UnindexedIndex(cards, card.id, cardsByTopic);
      } else {
        assert cards - {card.id} == cards;
      }
      ghost var without := cards - {card.id};
      assert cardsByTopic == IndexOf(without);
      cards := cards[card.id := card];
      IndexedIndex(without, card);
      assert cards == without[card.id := card];
      IndexCard(card);
    }

    method DeleteCard(id: Id) returns (previous: Option<Card>)
      requires Valid()
      modifies `cards, `cardsByTopic
      ensures Valid() && previous == Lookup(old(cards), id) && cards == old(cards) - {id}
    {
      previous := Lookup(cards, id);
      if previous.Some? {
        ghost var before := cards;
        cards := cards - {id};
        UnindexCard(previous.value);
        UnindexedIndex(before, id, cardsByTopic);
      }
    }

    method RestoreCard(id: Id, previous: Option<Card>)
      requires Valid() && (previous.Some? ==> previous.value.id == id)
      modifies `cards, `cardsByTopic
      ensures Valid() && cards == Restored(old(cards), id, previous)
    {
      if previous.None? {
        var _ := DeleteCard(id);
      } else {
        var _ := PutCard(previous.value);
      }
    }

    method PutTopic(topic: TopicRow) returns (previous: Option<TopicRow>)
      requires Valid()
      modifies `topics
      ensures Valid() && previous == Lookup(old(topics), topic.id) && topics == old(topics)[topic.id := topic]
    {
      previous := Lookup(topics, topic.id);
      topics := topics[topic.id := topic];
    }

    method DeleteTopic(id: Id) returns (previous: Option<TopicRow>)
      requires Valid()
      modifies `topics
      ensures Valid() && previous == Lookup(old(topics), id) && topics == old(topics) - {id}
    {
      previous := Lookup(topics, id);
      topics := topics - {id};
    }

    method RestoreTopic(id: Id, previous: Option<TopicRow>)
      requires Valid() && (previous.Some? ==> previous.value.id == id)
      modifies `topics
      ensures Valid() && topics == Restored(old(topics), id, previous)
    {
      if previous.None? {
        topics := topics - {id};
      } else {
        topics := topics[id := previous.value];
      }
    }

    /** Reloads everything; of several entries with one id the last wins. */
    method ReplaceAll(nextTopics: seq<TopicRow>, nextCards: seq<Card>)
      modifies this
      ensures Valid()
      ensures topics == LoadedTopics(nextTopics) && cards == LoadedCards(nextCards)
    {
      topics := map[];
      cards := map[];
      cardsByTopic := map[];
      for i := 0 to |nextTopics|
        invariant Valid() && cards == map[] && topics == LoadedTopics(nextTopics[..i])
      {
        assert nextTopics[..i + 1][..i] == nextTopics[..i];
        topics := topics[nextTopics[i].id := nextTopics[i]];
      }
      assert nextTopics[..|nextTopics|] == nextTopics;
      for i := 0 to |nextCards|
        invariant Valid() && topics == LoadedTopics(nextTopics) && cards == LoadedCards(nextCards[..i])
      {
        assert nextCards[..i + 1][..i] == nextCards[..i];
        var _ := PutCard(nextCards[i]);
      }
      assert nextCards[..|nextCards|] == nextCards;
    }

    /** The cards of one topic, straight from its bucket. */
    method CardsByTopic(topicId: Id) returns (found: map<Id, Card>)
      requires Valid()
      ensures found == BucketOf(cards, topicId)
    {
      if topicId in cardsByTopic {
        found := cardsByTopic[topicId];
      } else {
        found := map[];
        forall id | id in cards ensures cards[id].topicId != topicId {
          IndexAgrees(cards, cards[id].topicId, id);
        }
        assert BucketOf(cards, topicId) == map[];
      }
    }
  }

  /** Taking a card out of its bucket, and the bucket out if it was the last, gives the index without it. */
  lemma UnindexedIndex(cards: map<Id, Card>, id: Id, index: map<Id, map<Id, Card>>)
    requires id in cards && cards[id].id == id
    requires var t := cards[id].topicId;
      t in IndexOf(cards)
      && index == if IndexOf(cards)[t] - {id} == map[] then IndexOf(cards) - {t} else IndexOf(cards)[t := IndexOf(cards)[t] - {id}]
    ensures index == IndexOf(cards - {id})
  {
    var t := cards[id].topicId;
    var left := cards - {id};
    assert BucketOf(left, t) == BucketOf(cards, t) - {id};
    forall u | u != t ensures BucketOf(left, u) == BucketOf(cards, u) {
    }
    forall u ensures u in IndexOf(left) <==> u in index {
      if u == t {
        if u in index {
          var c :| c in BucketOf(left, t);
          assert left[c].topicId == t;
        } else {
          assert BucketOf(left, t) == map[];
          assert forall c :: c in left && left[c].topicId == t ==> c in BucketOf(left, t);
        }
      } else if u in IndexOf(cards) {
        var c :| c in cards && cards[c].topicId == u;
        assert c in left && left[c].topicId == u;
      }
    }
  }

  lemma IndexedIndex(cards: map<Id, Card>, card: Card)
    requires card.id !in cards
    ensures var t := card.topicId;
      IndexOf(cards[card.id := card]) == IndexOf(cards)[t := (if t in IndexOf(cards) then IndexOf(cards)[t] else map[])[card.id := card]]
  {
    var t := card.topicId;
    var after := cards[card.id := card];
    if t !in IndexOf(cards) {
      assert BucketOf(cards, t) == map[];
    }
    assert BucketOf(after, t) == BucketOf(cards, t)[card.id := card];
    forall u | u != t ensures BucketOf(after, u) == BucketOf(cards, u) {
    }
    forall u ensures u in IndexOf(after) <==> u in IndexOf(cards) || u == t {
      if u == t { assert after[card.id].topicId == t; }
      if u in IndexOf(cards) && u != t {
        var c :| c in cards && cards[c].topicId == u;
        assert c in after && after[c].topicId == u;
      }
    }
  }
}
