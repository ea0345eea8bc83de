// Undoing a run of puts by restoring, in the same order, what each put replaced.

module Rollback {
  import opened SyncTypes
  import opened CardData
  import opened StudyMemory

  function PutAll(m: map<Id, Card>, cards: seq<Card>): map<Id, Card> {
    if cards == [] then m
    else PutAll(m, cards[..|cards| - 1])[cards[|cards| - 1].id := cards[|cards| - 1]]
  }

  /** What each put replaced. */
  function Befores(m: map<Id, Card>, cards: seq<Card>): (r: seq<Option<Card>>)
    ensures |r| == |cards|
  {
    if cards == [] then []
    else
      var n := |cards| - 1;
      Befores(m, cards[..n]) + [Lookup(PutAll(m, cards[..n]), cards[n].id)]
  }

  /** Restores entry by entry, first to last. */
  function RestoreAll(m: map<Id, Card>, cards: seq<Card>, befores: seq<Option<Card>>): map<Id, Card>
    requires |cards| == |befores|
  {
    if cards == [] then m
    else
      var n := |cards| - 1;
      Restored(RestoreAll(m, cards[..n], befores[..n]), cards[n].id, befores[n])
  }

  function RolledBack(m: map<Id, Card>, cards: seq<Card>): map<Id, Card> {
    RestoreAll(PutAll(m, cards), cards, Befores(m, cards))
  }

  predicate Occurs(cards: seq<Card>, id: Id) {
    exists i :: 0 <= i < |cards| && cards[i].id == id
  }

  predicate LastOf(cards: seq<Card>, id: Id, i: nat) {
    i < |cards| && cards[i].id == id && forall j :: i < j < |cards| ==> cards[j].id != id
  }

  /** The last put of an id decides what is there. */
  lemma {:induction false} PutAllAt(m: map<Id, Card>, cards: seq<Card>, id: Id)
    ensures !Occurs(cards, id) ==> Lookup(PutAll(m, cards), id) == Lookup(m, id)
    ensures forall i: nat :: LastOf(cards, id, i) ==> Lookup(PutAll(m, cards), id) == Some(cards[i])
    ensures Occurs(cards, id) ==> exists i: nat :: LastOf(cards, id, i)
  {
    if cards != [] {
      var n := |cards| - 1;
      PutAllAt(m, cards[..n], id);
      if cards[n].id == id {
        assert LastOf(cards, id, n);
      } else {
        assert Occurs(cards, id) ==> Occurs(cards[..n], id);
        assert forall i: nat :: LastOf(cards, id, i) ==> LastOf(cards[..n], id, i);
        if Occurs(cards, id) {
          var i: nat :| LastOf(cards[..n], id, i);
          assert LastOf(cards, id, i);
        }
      }
    }
  }

  lemma {:induction false} BeforesAt(m: map<Id, Card>, cards: seq<Card>, i: nat)
    requires i < |cards|
    ensures Befores(m, cards)[i] == Lookup(PutAll(m, cards[..i]), cards[i].id)
  {
    var n := |cards| - 1;
    if i < n {
      BeforesAt(m, cards[..n], i);
      assert cards[..n][..i] == cards[..i];
    }
  }

  /** The last restore of an id decides what is there. */
  lemma {:induction false} RestoreAllAt(m: map<Id, Card>, cards: seq<Card>, befores: seq<Option<Card>>, id: Id)
    requires |cards| == |befores|
    ensures !Occurs(cards, id) ==> Lookup(RestoreAll(m, cards, befores), id) == Lookup(m, id)
    ensures forall i: nat :: LastOf(cards, id, i) ==> Lookup(RestoreAll(m, cards, befores), id) == befores[i]
  {
    if cards != [] {
      var n := |cards| - 1;
      RestoreAllAt(m, cards[..n], befores[..n], id);
      if cards[n].id != id {
        assert Occurs(cards, id) ==> Occurs(cards[..n], id);
        assert forall i: nat :: LastOf(cards, id, i) ==> LastOf(cards[..n], id, i);
      }
    }
  }

  /** The last two puts of one id: `i` then `j`, none between, none after. */
  predicate LastTwo(cards: seq<Card>, i: nat, j: nat) {
    i < j < |cards| && LastOf(cards, cards[i].id, j) && LastOf(cards[..j], cards[i].id, i)
  }

  /** What is there after the rollback: the original if the id was put once, else the last put but one. */
  lemma RolledBackAt(m: map<Id, Card>, cards: seq<Card>, id: Id)
    ensures forall i: nat, j: nat :: LastTwo(cards, i, j) && cards[i].id == id ==> Lookup(RolledBack(m, cards), id) == Some(cards[i])
    ensures (forall i: nat, j: nat :: LastTwo(cards, i, j) ==> cards[i].id != id) ==> Lookup(RolledBack(m, cards), id) == Lookup(m, id)
  {
    PutAllAt(m, cards, id);
    RestoreAllAt(PutAll(m, cards), cards, Befores(m, cards), id);
    if Occurs(cards, id) {
      var j: nat :| LastOf(cards, id, j);
      BeforesAt(m, cards, j);
      PutAllAt(m, cards[..j], id);
      if Occurs(cards[..j], id) {
        var i: nat :| LastOf(cards[..j], id, i);
        assert LastTwo(cards, i, j);
      }
    }
  }

  /** The rollback is exact if and only if no id is put twice, unless its last put but one happens to
      be the very card that was there. */
  lemma RollbackExactIff(m: map<Id, Card>, cards: seq<Card>)
    ensures RolledBack(m, cards) == m
       <==> forall i: nat, j: nat :: LastTwo(cards, i, j) ==> Lookup(m, cards[i].id) == Some(cards[i])
  {
    forall id
      ensures (forall i: nat, j: nat :: LastTwo(cards, i, j) ==> Lookup(m, cards[i].id) == Some(cards[i])) ==>
                Lookup(RolledBack(m, cards), id) == Lookup(m, id)
      ensures forall i: nat, j: nat :: LastTwo(cards, i, j) && cards[i].id == id ==> Lookup(RolledBack(m, cards), id) == Some(cards[i])
    {
      RolledBackAt(m, cards, id);
    }
    if forall i: nat, j: nat :: LastTwo(cards, i, j) ==> Lookup(m, cards[i].id) == Some(cards[i]) {
      SameLookups(RolledBack(m, cards), m);
    }
  }

  lemma SameLookups(a: map<Id, Card>, b: map<Id, Card>)
    requires forall id :: Lookup(a, id) == Lookup(b, id)
    ensures a == b
  {
    forall id ensures id in a <==> id in b {
      assert Lookup(a, id) == Lookup(b, id);
    }
    forall id | id in a ensures a[id] == b[id] {
      assert Lookup(a, id) == Lookup(b, id);
    }
  }

  ghost predicate DistinctIds(cards: seq<Card>) {
    forall i, j :: 0 <= i < j < |cards| ==> cards[i].id != cards[j].id
  }

  lemma DistinctRollsBack(m: map<Id, Card>, cards: seq<Card>)
    requires DistinctIds(cards)
    ensures RolledBack(m, cards) == m
  {
    RollbackExactIff(m, cards);
  }
}
