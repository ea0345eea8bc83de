// Topic titles: when a clash is settled, and when the settlement itself is refused.

module Titles {
  import opened SyncTypes
  import opened LastWriteWins
  import opened ServerApply

  /** No live topic but the loser itself carries the title the loser is to receive. */
  ghost predicate TitleFree(rows: map<Key, Row>, user: Id, newTitle: string, loser: Id) {
    forall k :: LiveTitle(rows, user, newTitle, k) ==> k.id == loser
  }

  /** The losing side of a clash between an incoming topic and a stored one. */
  function LoserOf(r: Record, other: Id, otherAt: Time): Id {
    if IncomingKeepsTitle(r.id, r.updatedAt, other, otherAt) then other else r.id
  }

  function WinnerOf(r: Record, other: Id, otherAt: Time): Id {
    if IncomingKeepsTitle(r.id, r.updatedAt, other, otherAt) then r.id else other
  }

  /** A new topic whose record is already marked deleted is stored as a tombstone. */
  predicate ArrivesDead(s: Server, r: Record) {
    Key(Topics, r.id) !in s.rows && Truthy(r.deletedAt).Some?
  }

  lemma DisambiguatedDiffers(title: string, id: Id)
    ensures Disambiguated(title, id) != title
  {
    assert |Disambiguated(title, id)| > |title|;
  }

  /** Two topics of one title get different ones unless their ids begin with the same four characters. */
  lemma DisambiguatedTellsApart(title: string, a: Id, b: Id)
    requires |a| >= 4 && |b| >= 4
    ensures Disambiguated(title, a) == Disambiguated(title, b) <==> a[..4] == b[..4]
  {
    var start := title + " (";
    assert Disambiguated(title, a)[|start|..|start| + 4] == a[..4];
    assert Disambiguated(title, b)[|start|..|start| + 4] == b[..4];
  }

  /** A write keeps titles unique exactly when no other live topic has the written title. */
  lemma PutTopicUniqueIff(s: Server, user: Id, k: Key, row: Row)
    requires UniqueTitles(s.rows) && k.table.Topics? && row.body.TopicBody? && row.owner == user
    ensures UniqueTitles(PutRow(s, user, k, row).rows)
       <==> (Live(row) ==> forall j :: LiveTitle(s.rows, user, row.body.title, j) ==> j == k)
  {
    var rows := PutRow(s, user, k, row).rows;
    forall u, t, j | j != k ensures LiveTitle(rows, u, t, j) == LiveTitle(s.rows, u, t, j) {
    }
    if Live(row) {
      assert LiveTitle(rows, user, row.body.title, k);
    }
  }

  /** A topic upsert that beats the stored version commits exactly when there is no clash,
      or the disambiguated title is free, or the clash's loser arrives already deleted. */
  lemma TopicUpsertCommitsIff(s: Server, user: Id, device: Id, m: Mutation, now: Time)
    requires UniqueTitles(s.rows) && BodiesFit(s.rows)
    requires m.key.table.Topics? && PayloadOf(m).Some?
    requires var k := Key(Topics, m.payload.value.id); k in s.rows ==> s.rows[k].owner == user
    requires !Loses(s, Key(Topics, m.payload.value.id), device, m.payload.value)
    ensures var r := m.payload.value;
      var clash := FindClash(s.rows, user, r.id, r.body.title);
      ApplyTopicUpsert(s, user, device, m, now).Commit?
      <==> (clash.None?
            || var loser := LoserOf(r, clash.value.id, s.rows[clash.value].updatedAt);
               TitleFree(s.rows, user, Disambiguated(r.body.title, loser), loser)
               || (loser == r.id && ArrivesDead(s, r)))
  {
    var r := m.payload.value;
    var k := Key(Topics, r.id);
    var clash := FindClash(s.rows, user, r.id, r.body.title);
    if clash.None? {
      PutTopicUniqueIff(s, user, k, Retitled(UpsertRow(s, user, k, r), r.body.title));
      forall j | LiveTitle(s.rows, user, r.body.title, j) ensures j == k {
        assert !Clashes(s.rows, user, r.id, r.body.title, j);
      }
    } else {
      ClashCommitsIff(s, user, device, m, now, clash.value);
    }
  }

  lemma ClashCommitsIff(s: Server, user: Id, device: Id, m: Mutation, now: Time, other: Key)
    requires UniqueTitles(s.rows) && BodiesFit(s.rows)
    requires m.key.table.Topics? && PayloadOf(m).Some?
    requires var k := Key(Topics, m.payload.value.id); k in s.rows ==> s.rows[k].owner == user
    requires !Loses(s, Key(Topics, m.payload.value.id), device, m.payload.value)
    requires FindClash(s.rows, user, m.payload.value.id, m.payload.value.body.title) == Some(other)
    ensures var r := m.payload.value;
      var loser := LoserOf(r, other.id, s.rows[other].updatedAt);
      ApplyTopicUpsert(s, user, device, m, now).Commit?
      <==> (TitleFree(s.rows, user, Disambiguated(r.body.title, loser), loser)
            || (loser == r.id && ArrivesDead(s, r)))
  {
    var r := m.payload.value;
    var title := r.body.title;
    var k := Key(Topics, r.id);
    var loser := LoserOf(r, other.id, s.rows[other].updatedAt);
    var newTitle := Disambiguated(title, loser);
    DisambiguatedDiffers(title, loser);
    var lk := Key(Topics, loser);
    var s1 := SettleTitle(s, user, r.id, title, r.updatedAt, other, now).0;
    if lk in s.rows {
      PutTopicUniqueIff(s, user, lk, Retitled(s.rows[lk], newTitle).(updatedAt := now));
    }
    if UniqueTitles(s1.rows) {
      var stored := if loser == r.id then newTitle else title;
      PutTopicUniqueIff(s1, user, k, Retitled(UpsertRow(s1, user, k, r), stored));
      if loser == r.id {
        forall j | j != k ensures LiveTitle(s1.rows, user, newTitle, j) == LiveTitle(s.rows, user, newTitle, j) {
        }
      } else {
        forall j ensures !LiveTitle(s1.rows, user, title, j) {
          if LiveTitle(s1.rows, user, title, j) {
            assert LiveTitle(s.rows, user, title, j) && LiveTitle(s.rows, user, title, other);
            assert false;
          }
        }
      }
    }
  }

  /** A settled clash leaves the winner with the title and the loser with the longer one. */
  lemma ClashOutcome(s: Server, user: Id, device: Id, m: Mutation, now: Time, other: Key)
    requires m.key.table.Topics? && PayloadOf(m).Some? && BodiesFit(s.rows)
    requires var k := Key(Topics, m.payload.value.id); k in s.rows ==> s.rows[k].owner == user
    requires !Loses(s, Key(Topics, m.payload.value.id), device, m.payload.value)
    requires FindClash(s.rows, user, m.payload.value.id, m.payload.value.body.title) == Some(other)
    requires ApplyTopicUpsert(s, user, device, m, now).Commit?
    ensures var r := m.payload.value;
      var tx := ApplyTopicUpsert(s, user, device, m, now);
      var winner := Key(Topics, WinnerOf(r, other.id, s.rows[other].updatedAt));
      var loser := Key(Topics, LoserOf(r, other.id, s.rows[other].updatedAt));
      && winner != loser
      && {winner, loser} == {Key(Topics, r.id), other}
      && winner in tx.server.rows && tx.server.rows[winner].body.title == r.body.title
      && loser in tx.server.rows && tx.server.rows[loser].body.title == Disambiguated(r.body.title, loser.id)
      && tx.conflict == Some(Conflict(loser.id, r.body.title, Disambiguated(r.body.title, loser.id), now))
      && (winner.id == r.id <==>
            r.updatedAt > s.rows[other].updatedAt || (r.updatedAt == s.rows[other].updatedAt && Compare(r.id, other.id) > 0))
      && (loser == other ==> tx.server.rows[loser].updatedAt == now)
      && tx.server.rows[Key(Topics, r.id)].updatedAt == r.updatedAt
  {
  }
}
