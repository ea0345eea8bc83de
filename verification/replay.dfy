// Sending the same operations again: with the op log, and without it.

module Replay {
  import opened SyncTypes
  import opened LastWriteWins
  import opened ServerApply
  import opened Validation
  import opened PushBatch
  import opened Titles

  // ----- with the op log -----

  /** The state after the first `i` operations of a batch. */
  ghost function After(s: Server, user: Id, device: Id, ms: seq<Mutation>, hard: bool, envs: seq<Env>, i: nat): Server
    requires i <= |ms| <= |envs|
  {
    ApplyOrdered(s, user, device, ms[..i], hard, envs).0
  }

  lemma OpLogOnlyGrows(s: Server, user: Id, device: Id, m: Mutation, hard: bool, env: Env)
    ensures s.ops <= ApplyOp(s, user, device, m, hard, env).0.ops
    ensures ApplyOp(s, user, device, m, hard, env).1.Accepted? ==> (user, m.opId) in ApplyOp(s, user, device, m, hard, env).0.ops
  {
    if ApplyMutation(s, user, device, m, env.now, hard).Commit? {
      ApplyAdvances(s, user, device, m, env.now, hard);
    }
  }

  lemma {:induction false} BatchKeepsOps(s: Server, user: Id, device: Id, ms: seq<Mutation>, hard: bool, envs: seq<Env>)
    requires |ms| <= |envs|
    ensures s.ops <= ApplyOrdered(s, user, device, ms, hard, envs).0.ops
    ensures forall opId :: opId in ApplyOrdered(s, user, device, ms, hard, envs).1.accepted ==>
              (user, opId) in ApplyOrdered(s, user, device, ms, hard, envs).0.ops
  {
    if ms != [] {
      var n := |ms| - 1;
      BatchKeepsOps(s, user, device, ms[..n], hard, envs);
      var s1 := ApplyOrdered(s, user, device, ms[..n], hard, envs).0;
      OpLogOnlyGrows(s1, user, device, ms[n], hard, envs[n]);
    }
  }

  /** Re-sending a batch in any surroundings: an operation accepted the first time changes nothing the
      second time, and is accepted again unless the server cannot answer at all. */
  lemma ReplaySkipsAccepted(
    s: Server, user: Id, device: Id, ms: seq<Mutation>, hard: bool, envs: seq<Env>,
    hard': bool, envs': seq<Env>, i: nat)
    requires i < |ms| <= |envs| && |ms| <= |envs'|
    requires ms[i].opId in ApplyOrdered(s, user, device, ms, hard, envs).1.accepted
    ensures var s1 := ApplyOrdered(s, user, device, ms, hard, envs).0;
      After(s1, user, device, ms, hard', envs', i + 1) == After(s1, user, device, ms, hard', envs', i)
    ensures var s1 := ApplyOrdered(s, user, device, ms, hard, envs).0;
      !envs'[i].fault.Unavailable? ==> ms[i].opId in ApplyOrdered(s1, user, device, ms[..i + 1], hard', envs').1.accepted
  {
    var s1 := ApplyOrdered(s, user, device, ms, hard, envs).0;
    BatchKeepsOps(s, user, device, ms, hard, envs);
    assert ms[..i + 1][..i] == ms[..i];
    BatchKeepsOps(s1, user, device, ms[..i], hard', envs');
  }

  /** A batch that was accepted in full can be re-sent: nothing at all changes. */
  lemma {:induction false} FullReplayChangesNothing(
    s: Server, user: Id, device: Id, ms: seq<Mutation>, hard: bool, envs: seq<Env>,
    hard': bool, envs': seq<Env>, i: nat)
    requires i <= |ms| <= |envs| && |ms| <= |envs'|
    requires forall j :: 0 <= j < |ms| ==> ms[j].opId in ApplyOrdered(s, user, device, ms, hard, envs).1.accepted
    ensures var s1 := ApplyOrdered(s, user, device, ms, hard, envs).0;
      After(s1, user, device, ms, hard', envs', i) == s1
  {
    if i > 0 {
      FullReplayChangesNothing(s, user, device, ms, hard, envs, hard', envs', i - 1);
      ReplaySkipsAccepted(s, user, device, ms, hard, envs, hard', envs', i - 1);
    }
  }

  // ----- without it -----

  /** Equal tables up to the sequences of the rows. */
  ghost predicate SameContents(a: map<Key, Row>, b: map<Key, Row>) {
    a.Keys == b.Keys && forall k :: k in a ==> a[k].(serverSeq := 0) == b[k].(serverSeq := 0)
  }

  /** The record creates a row that is stored as a tombstone from the start. */
  predicate CreatedDead(s: Server, k: Key, r: Record) {
    k !in s.rows && Truthy(r.deletedAt).Some?
  }

  /** Applying a card upsert twice leaves the same contents exactly when the first apply did not
      create the row as a tombstone: the second apply would bring it to life. */
  lemma CardTwice(s: Server, user: Id, device: Id, m: Mutation)
    requires device != "" && m.key.table.Cards? && ApplyCardUpsert(s, user, device, m).Commit?
    ensures var s1 := ApplyCardUpsert(s, user, device, m).server;
      var tx2 := ApplyCardUpsert(s1, user, device, m);
      tx2.Commit? && (SameContents(s1.rows, tx2.server.rows) <==> !CreatedDead(s, Key(Cards, PayloadOf(m).value.id), PayloadOf(m).value))
  {
    var r := PayloadOf(m).value;
    var k := Key(Cards, r.id);
    var s1 := ApplyCardUpsert(s, user, device, m).server;
    ServerTieGoesToIncoming(r.updatedAt, r.updatedAt, device, r.id);
    var s2 := ApplyCardUpsert(s1, user, device, m).server;
    if CreatedDead(s, k, r) {
      assert s2.rows[k].deletedAt.None?;
    }
  }

  /** Applying a delete twice leaves the same contents, unless the first apply leaves a tombstone and the
      second, with no other device active any more, deletes the row for good. */
  lemma DeleteTwice(s: Server, user: Id, m: Mutation, now1: Time, now2: Time, hard1: bool, hard2: bool)
    requires m.updatedAt != 0 && ApplyDelete(s, user, m, now1, hard1).Commit?
    ensures var s1 := ApplyDelete(s, user, m, now1, hard1).server;
      var tx2 := ApplyDelete(s1, user, m, now2, hard2);
      tx2.Commit? && (SameContents(s1.rows, tx2.server.rows)
                      <==> !(!hard1 && hard2 && m.key in s.rows && s.rows[m.key].updatedAt <= m.updatedAt))
  {
    var s1 := ApplyDelete(s, user, m, now1, hard1).server;
    var s2 := ApplyDelete(s1, user, m, now2, hard2).server;
    if m.key in s.rows && s.rows[m.key].updatedAt <= m.updatedAt {
      if hard1 {
        assert m.key !in s1.rows;
      } else if hard2 {
        assert m.key in s1.rows && m.key !in s2.rows;
      }
    }
  }

  /** Applying a topic upsert twice leaves the same contents, whichever side of a title clash is renamed,
      exactly when the first apply did not create the row as a tombstone. */
  lemma TopicTwice(s: Server, user: Id, device: Id, m: Mutation, now1: Time, now2: Time)
    requires device != "" && m.key.table.Topics? && ApplyTopicUpsert(s, user, device, m, now1).Commit?
    requires Integrity(s.rows)
    ensures var s1 := ApplyTopicUpsert(s, user, device, m, now1).server;
      var tx2 := ApplyTopicUpsert(s1, user, device, m, now2);
      (tx2.Commit? && SameContents(s1.rows, tx2.server.rows))
      <==> !CreatedDead(s, Key(Topics, PayloadOf(m).value.id), PayloadOf(m).value)
  {
    if CreatedDead(s, Key(Topics, PayloadOf(m).value.id), PayloadOf(m).value) {
      TopicComesAlive(s, user, device, m, now1, now2);
    } else {
      TopicTwiceSame(s, user, device, m, now1, now2);
    }
  }

  /** A topic created as a tombstone is live after the second apply, if that commits. */
  lemma TopicComesAlive(s: Server, user: Id, device: Id, m: Mutation, now1: Time, now2: Time)
    requires device != "" && m.key.table.Topics? && ApplyTopicUpsert(s, user, device, m, now1).Commit?
    requires CreatedDead(s, Key(Topics, PayloadOf(m).value.id), PayloadOf(m).value)
    ensures var k := Key(Topics, PayloadOf(m).value.id);
      var s1 := ApplyTopicUpsert(s, user, device, m, now1).server;
      var tx2 := ApplyTopicUpsert(s1, user, device, m, now2);
      k in s1.rows && !Live(s1.rows[k]) && (tx2.Commit? ==> k in tx2.server.rows && Live(tx2.server.rows[k]))
  {
    var r := PayloadOf(m).value;
    ServerTieGoesToIncoming(r.updatedAt, r.updatedAt, device, r.id);
  }

  lemma TopicTwiceSame(s: Server, user: Id, device: Id, m: Mutation, now1: Time, now2: Time)
    requires device != "" && m.key.table.Topics? && ApplyTopicUpsert(s, user, device, m, now1).Commit?
    requires Integrity(s.rows)
    requires !CreatedDead(s, Key(Topics, PayloadOf(m).value.id), PayloadOf(m).value)
    ensures var s1 := ApplyTopicUpsert(s, user, device, m, now1).server;
      var tx2 := ApplyTopicUpsert(s1, user, device, m, now2);
      tx2.Commit? && SameContents(s1.rows, tx2.server.rows)
  {
    var r := PayloadOf(m).value;
    var k := Key(Topics, r.id);
    ServerTieGoesToIncoming(r.updatedAt, r.updatedAt, device, r.id);
    if !Loses(s, k, device, r) {
      TopicUpsertKeepsIntegrity(s, user, device, m, now1);
      var s1 := ApplyTopicUpsert(s, user, device, m, now1).server;
      var clash := FindClash(s.rows, user, r.id, r.body.title);
      if clash.Some? {
        ClashOutcome(s, user, device, m, now1, clash.value);
      }
      if clash.Some? && LoserOf(r, clash.value.id, s.rows[clash.value].updatedAt) == r.id {
        LosesAgain(s, s1, user, device, m, now1, now2, clash.value);
      } else {
        KeepsTitle(s, s1, user, device, m, now1);
        TopicUpsertCommitsIff(s1, user, device, m, now2);
        SecondPutSame(s, s1, user, device, m, now1, now2);
      }
    }
  }

  lemma SecondPutSame(s: Server, s1: Server, user: Id, device: Id, m: Mutation, now1: Time, now2: Time)
    requires device != "" && m.key.table.Topics? && BodiesFit(s.rows)
    requires ApplyTopicUpsert(s, user, device, m, now1).Commit? && s1 == ApplyTopicUpsert(s, user, device, m, now1).server
    requires var r := PayloadOf(m).value;
      && !Loses(s, Key(Topics, r.id), device, r) && !CreatedDead(s, Key(Topics, r.id), r)
      && FindClash(s1.rows, user, r.id, r.body.title).None?
      && (FindClash(s.rows, user, r.id, r.body.title).Some? ==>
            s1.rows[Key(Topics, r.id)].body.title == r.body.title)
    requires ApplyTopicUpsert(s1, user, device, m, now2).Commit?
    ensures SameContents(s1.rows, ApplyTopicUpsert(s1, user, device, m, now2).server.rows)
  {
    var r := PayloadOf(m).value;
    var k := Key(Topics, r.id);
    ServerTieGoesToIncoming(r.updatedAt, r.updatedAt, device, r.id);
    assert s1.rows[k].body == StoredBody(r.body) && s1.rows[k].updatedAt == r.updatedAt && Live(s1.rows[k]);
  }

  /** Once an incoming topic holds its title, nothing clashes with it any more. */
  lemma KeepsTitle(s: Server, s1: Server, user: Id, device: Id, m: Mutation, now: Time)
    requires m.key.table.Topics? && Integrity(s.rows)
    requires ApplyTopicUpsert(s, user, device, m, now).Commit? && s1 == ApplyTopicUpsert(s, user, device, m, now).server
    requires var r := PayloadOf(m).value; !Loses(s, Key(Topics, r.id), device, r)
    requires var r := PayloadOf(m).value;
      var clash := FindClash(s.rows, user, r.id, r.body.title);
      clash.Some? ==> LoserOf(r, clash.value.id, s.rows[clash.value].updatedAt) != r.id
    ensures var r := PayloadOf(m).value; FindClash(s1.rows, user, r.id, r.body.title).None?
  {
    var r := PayloadOf(m).value;
    var title := r.body.title;
    var clash := FindClash(s.rows, user, r.id, title);
    if clash.Some? {
      ClashOutcome(s, user, device, m, now, clash.value);
      DisambiguatedDiffers(title, clash.value.id);
    }
    forall j ensures !Clashes(s1.rows, user, r.id, title, j) {
      if clash.None? || j != clash.value {
        assert LiveTitle(s1.rows, user, title, j) && j.id != r.id ==> LiveTitle(s.rows, user, title, j);
        assert !Clashes(s.rows, user, r.id, title, j);
      }
    }
  }

  /** A topic that lost its title is stored under the longer one, and the winner keeps the title. */
  lemma AfterLosing(s: Server, s1: Server, user: Id, device: Id, m: Mutation, now: Time, other: Key)
    requires device != "" && m.key.table.Topics? && Integrity(s.rows)
    requires ApplyTopicUpsert(s, user, device, m, now).Commit? && s1 == ApplyTopicUpsert(s, user, device, m, now).server
    requires var r := PayloadOf(m).value;
      !Loses(s, Key(Topics, r.id), device, r) && !CreatedDead(s, Key(Topics, r.id), r)
      && FindClash(s.rows, user, r.id, r.body.title) == Some(other)
      && LoserOf(r, other.id, s.rows[other].updatedAt) == r.id
    ensures var r := PayloadOf(m).value; var k := Key(Topics, r.id);
      && other in s.rows && other in s1.rows && s1.rows[other] == s.rows[other] && Clashes(s1.rows, user, r.id, r.body.title, other)
      && LiveTitle(s1.rows, user, Disambiguated(r.body.title, r.id), k)
      && s1.rows[k].updatedAt == r.updatedAt
      && s1.rows[k].body == StoredBody(r.body).(title := Disambiguated(r.body.title, r.id))
  {
  }

  /** A topic that lost its title once loses it again, to the same result. */
  lemma LosesAgain(s: Server, s1: Server, user: Id, device: Id, m: Mutation, now1: Time, now2: Time, other: Key)
    requires device != "" && m.key.table.Topics? && Integrity(s.rows) && Integrity(s1.rows)
    requires ApplyTopicUpsert(s, user, device, m, now1).Commit? && s1 == ApplyTopicUpsert(s, user, device, m, now1).server
    requires var r := PayloadOf(m).value;
      !Loses(s, Key(Topics, r.id), device, r) && !CreatedDead(s, Key(Topics, r.id), r)
      && FindClash(s.rows, user, r.id, r.body.title) == Some(other)
      && LoserOf(r, other.id, s.rows[other].updatedAt) == r.id
    ensures var tx2 := ApplyTopicUpsert(s1, user, device, m, now2);
      tx2.Commit? && SameContents(s1.rows, tx2.server.rows)
  {
    var r := PayloadOf(m).value;
    var k := Key(Topics, r.id);
    var newTitle := Disambiguated(r.body.title, r.id);
    ServerTieGoesToIncoming(r.updatedAt, r.updatedAt, device, r.id);
    AfterLosing(s, s1, user, device, m, now1, other);
    var clash := FindClash(s1.rows, user, r.id, r.body.title);
    assert clash == Some(other);
    ClashCommitsIff(s1, user, device, m, now2, other);
  }
}
