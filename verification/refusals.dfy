// Why the server refuses an operation, and which refusals are worth another attempt.

module Refusals {
  import opened SyncTypes
  import opened LastWriteWins
  import opened ServerApply
  import opened Titles

  predicate IsOthers(s: Server, user: Id, k: Key) { k in s.rows && s.rows[k].owner != user }

  /** A delete is refused exactly for a record of someone else. */
  lemma DeleteRefusedIff(s: Server, user: Id, device: Id, m: Mutation, now: Time, hard: bool)
    requires user in s.seqs && m.operation.Delete?
    ensures var tx := ApplyMutation(s, user, device, m, now, hard);
      (tx.Abort? <==> IsOthers(s, user, m.key)) && (tx.Abort? ==> tx.failure == Forbidden)
  {
  }

  /** A delete that goes through leaves a newer version alone, and otherwise removes the record with its
      cascade or marks it deleted at the delete's time; one without a time is made now. */
  lemma DeleteDoes(s: Server, user: Id, device: Id, m: Mutation, now: Time, hard: bool)
    requires user in s.seqs && m.operation.Delete? && m.key in s.rows && s.rows[m.key].owner == user
    ensures var tx, at := ApplyMutation(s, user, device, m, now, hard), if m.updatedAt == 0 then now else m.updatedAt;
      tx.Commit? &&
      if s.rows[m.key].updatedAt > at then tx.server.rows == s.rows
      else if hard then
        forall k :: (k in tx.server.rows <==>
                       k in s.rows && k != m.key && !(s.rows[k].body.CardBody? && m.key == Key(Topics, s.rows[k].body.topicId)))
                    && (k in tx.server.rows ==> tx.server.rows[k] == s.rows[k])
      else
        var row := s.rows[m.key];
        tx.server.rows == s.rows[m.key := Row(user, row.body, at, Some(at), SeqOf(s, user) + 1)]
  {
  }

  /** A card is refused exactly if its topic is not stored, if its topic or it itself is someone else's, or if
      the operation carries no card. */
  lemma CardRefusedIff(s: Server, user: Id, device: Id, m: Mutation, now: Time, hard: bool)
    requires user in s.seqs && m.operation.Upsert? && m.key.table.Cards? && Addressed(m)
    ensures var tx, topic := ApplyMutation(s, user, device, m, now, hard), Key(Topics, m.payload.value.body.topicId);
      && (tx.Abort? <==> topic !in s.rows || IsOthers(s, user, topic) || IsOthers(s, user, m.key))
      && (tx.Abort? ==> tx.failure == if topic !in s.rows then TopicNotSynced else Forbidden)
  {
  }

  /** A topic is refused exactly if it is someone else's, or if it is not older than the stored one, meets a
      clash, and the clash cannot be settled. */
  lemma TopicRefusedIff(s: Server, user: Id, device: Id, m: Mutation, now: Time, hard: bool)
    requires user in s.seqs && m.operation.Upsert? && m.key.table.Topics? && Addressed(m) && device != ""
    requires UniqueTitles(s.rows) && BodiesFit(s.rows)
    ensures var tx, r := ApplyMutation(s, user, device, m, now, hard), m.payload.value;
      var clash := FindClash(s.rows, user, r.id, r.body.title);
      && (tx.Abort? <==>
            IsOthers(s, user, m.key)
            || ((m.key in s.rows ==> r.updatedAt >= s.rows[m.key].updatedAt) && clash.Some?
                && var loser := LoserOf(r, clash.value.id, s.rows[clash.value].updatedAt);
                   !TitleFree(s.rows, user, Disambiguated(r.body.title, loser), loser) && !(loser == r.id && ArrivesDead(s, r))))
      && (tx.Abort? ==> tx.failure == if IsOthers(s, user, m.key) then Forbidden else ApplyFailed)
  {
    var r := m.payload.value;
    if m.key in s.rows { ServerTieGoesToIncoming(s.rows[m.key].updatedAt, r.updatedAt, device, r.id); }
    if !IsOthers(s, user, m.key) && !Loses(s, m.key, device, r) {
      TopicUpsertCommitsIff(s, user, device, m, now);
    }
  }

  /** Later tables in which no record has changed hands. */
  ghost predicate SameHands(s: Server, s1: Server) {
    s1.seqs.Keys == s.seqs.Keys && forall k :: k in s.rows ==> k in s1.rows && s1.rows[k].owner == s.rows[k].owner
  }

  /** Every record deleted, so that no title is in use, with one more topic. */
  function Cleared(s: Server, user: Id, topic: Key): Server {
    s.(rows := map k | k in s.rows.Keys + {topic} ::
      if k in s.rows then s.rows[k].(deletedAt := Some(1)) else Row(user, TopicBody("", 0, "", 0, None), 0, Some(1), 0))
  }

  lemma NoTitleInUse(s: Server, user: Id, topic: Key, k: Key, row: Row)
    requires row.owner == user && row.body.TopicBody? && k.table.Topics?
    ensures UniqueTitles(Cleared(s, user, topic).rows) && UniqueTitles(Cleared(s, user, topic).rows[k := row])
    ensures forall u, title, j :: !LiveTitle(Cleared(s, user, topic).rows, u, title, j)
  {
  }

  /** The card is someone else's, but the server looks at its missing topic first. */
  predicate HidesBehindTopic(s: Server, user: Id, m: Mutation) {
    m.operation.Upsert? && m.payload.Some? && m.payload.value.body.CardBody?
    && Key(Topics, m.payload.value.body.topicId) !in s.rows && IsOthers(s, user, Key(Cards, m.payload.value.id))
  }

  /** A refusal is said to be worth a retry exactly if some later tables, no record having changed hands, take
      the very same operation; and in one more case, which is not: a card that is someone else's, sent with a
      topic the server does not have. */
  lemma RetryableIffCurable(s: Server, user: Id, device: Id, m: Mutation, now: Time, hard: bool)
    requires user in s.seqs && ApplyMutation(s, user, device, m, now, hard).Abort?
    ensures ApplyMutation(s, user, device, m, now, hard).failure.Retryable()
      <==> (exists s1 :: SameHands(s, s1) && ApplyMutation(s1, user, device, m, now, hard).Commit?)
           || (m.key.table.Cards? && HidesBehindTopic(s, user, m))
    ensures m.key.table.Cards? && HidesBehindTopic(s, user, m) ==>
      forall s1 :: SameHands(s, s1) ==> ApplyMutation(s1, user, device, m, now, hard).Abort?
  {
    if ApplyMutation(s, user, device, m, now, hard).failure.Retryable() && !HidesBehindTopic(s, user, m) {
      var r := m.payload.value;
      var topic := if m.key.table.Cards? then Key(Topics, r.body.topicId) else Key(Topics, r.id);
      ClearedTakes(s, user, device, m, now, hard, topic);
      assert SameHands(s, Cleared(s, user, topic));
    } else {
      forall s1 | SameHands(s, s1) ensures ApplyMutation(s1, user, device, m, now, hard).Abort? {
        StaysRefused(s, s1, user, device, m, now, hard);
      }
    }
  }

  lemma ClearedTakes(s: Server, user: Id, device: Id, m: Mutation, now: Time, hard: bool, topic: Key)
    requires user in s.seqs && ApplyMutation(s, user, device, m, now, hard).Abort?
    requires ApplyMutation(s, user, device, m, now, hard).failure.Retryable() && m.payload.Some? && !HidesBehindTopic(s, user, m)
    requires topic == if m.key.table.Cards? && m.payload.value.body.CardBody? then Key(Topics, m.payload.value.body.topicId) else Key(Topics, m.payload.value.id)
    ensures ApplyMutation(Cleared(s, user, topic), user, device, m, now, hard).Commit?
  {
    var r := m.payload.value;
    if m.key.table.Topics? {
      var s1 := Cleared(s, user, topic);
      assert s1.rows[topic].owner == user;
      NoTitleInUse(s, user, topic, topic, Retitled(UpsertRow(s1, user, topic, r), r.body.title).(serverSeq := SeqOf(s1, user) + 1));
      assert FindClash(s1.rows, user, r.id, r.body.title).None? by {
        forall j ensures !Clashes(s1.rows, user, r.id, r.body.title, j) {
          assert !LiveTitle(s1.rows, user, r.body.title, j);
        }
      }
    }
  }

  lemma StaysRefused(s: Server, s1: Server, user: Id, device: Id, m: Mutation, now: Time, hard: bool)
    requires user in s.seqs && SameHands(s, s1) && ApplyMutation(s, user, device, m, now, hard).Abort?
    requires ApplyMutation(s, user, device, m, now, hard).failure.Retryable() ==> m.key.table.Cards? && HidesBehindTopic(s, user, m)
    ensures ApplyMutation(s1, user, device, m, now, hard).Abort?
  {
  }
}
