// Why the user's row is locked before anything is read. Allocating a sequence updates that row and so
// locks it anyway; what the lock as first statement adds is that the stored version a write is
// compared with is still the stored version when the write happens.

module LockFirst {
  import opened SyncTypes
  import opened LastWriteWins
  import opened ServerApply

  /** A card upsert that compared with the rows of `read` and writes to those of `now`. */
  function WriteDecidedOn(read: Server, now: Server, user: Id, device: Id, r: Record): Server {
    var k := Key(Cards, r.id);
    if Loses(read, k, device, r) then now else PutRow(now, user, k, UpsertRow(now, user, k, r))
  }

  /** Compared under the lock, this is the transaction's own write. */
  lemma LockedIsTheTransaction(s: Server, user: Id, device: Id, m: Mutation)
    requires m.key.table.Cards? && ApplyCardUpsert(s, user, device, m).Commit?
    ensures ApplyCardUpsert(s, user, device, m).server == WriteDecidedOn(s, s, user, device, m.payload.value)
  {
  }

  /** A write compared with an earlier state moves a stored card back in time exactly when it beat the
      version read and another write newer than it was committed in between. */
  lemma GoesBackIff(read: Server, now: Server, user: Id, device: Id, r: Record)
    requires device != "" && Key(Cards, r.id) in now.rows
    ensures var k := Key(Cards, r.id);
      WriteDecidedOn(read, now, user, device, r).rows[k].updatedAt < now.rows[k].updatedAt
      <==> (k !in read.rows || r.updatedAt >= read.rows[k].updatedAt) && r.updatedAt < now.rows[k].updatedAt
  {
    var k := Key(Cards, r.id);
    if k in read.rows {
      ServerTieGoesToIncoming(read.rows[k].updatedAt, r.updatedAt, device, r.id);
    }
  }

  /** Two upserts of one stored card, the first reading before the second has committed: without the
      lock at the start the older one ends up stored, under the higher sequence; with it the newer. */
  lemma ReadBeforeLockLosesNewer(s: Server, user: Id, d1: Id, older: Record, d2: Id, m2: Mutation)
    requires d1 != "" && d2 != "" && m2.key == Key(Cards, older.id) && m2.operation.Upsert? && Addressed(m2)
    requires ApplyCardUpsert(s, user, d2, m2).Commit? && m2.key in s.rows
    requires s.rows[m2.key].updatedAt <= older.updatedAt < m2.payload.value.updatedAt
    ensures var k, s2 := m2.key, ApplyCardUpsert(s, user, d2, m2).server;
      && s2.rows[k].updatedAt == m2.payload.value.updatedAt
      && WriteDecidedOn(s, s2, user, d1, older).rows[k].updatedAt == older.updatedAt
      && WriteDecidedOn(s, s2, user, d1, older).rows[k].serverSeq > s2.rows[k].serverSeq
      && WriteDecidedOn(s2, s2, user, d1, older) == s2
  {
    var s2 := ApplyCardUpsert(s, user, d2, m2).server;
    ServerTieGoesToIncoming(s.rows[m2.key].updatedAt, older.updatedAt, d1, older.id);
    ServerTieGoesToIncoming(s.rows[m2.key].updatedAt, m2.payload.value.updatedAt, d2, older.id);
    ServerTieGoesToIncoming(s2.rows[m2.key].updatedAt, older.updatedAt, d1, older.id);
  }
}
