// What one apply transaction does to the server's tables, as functions on values.
// The class in sync_server.dfy performs the same transactions step by step.

module ServerApply {
  import opened SyncTypes
  import opened LastWriteWins

  /** A stored topic or card. `deletedAt` set makes it a tombstone. */
  datatype Row = Row(owner: Id, body: Body, updatedAt: Time, deletedAt: Option<Time>, serverSeq: nat)

  datatype DeviceRow = DeviceRow(owner: Id, lastPulledSeq: nat, lastSeenAt: Time, revokedAt: Option<Time>)

  /** The tables: rows, one sequence counter per user, the op log, and the devices. */
  datatype Server = Server(
    rows: map<Key, Row>, seqs: map<Id, nat>, ops: set<(Id, Id)>, devices: map<Id, DeviceRow>)

  datatype Tx = Commit(server: Server, conflict: Option<Conflict>) | Abort(failure: Failure)

  predicate Live(row: Row) { row.deletedAt.None? }

  /** The sequence the user's latest write received. */
  function SeqOf(s: Server, user: Id): nat {
    if user in s.seqs then s.seqs[user] else 0
  }

  /** Writes a row under the next sequence of its owner. */
  function PutRow(s: Server, user: Id, k: Key, row: Row): Server {
    var next := SeqOf(s, user) + 1;
    s.(rows := s.rows[k := row.(serverSeq := next)], seqs := s.seqs[user := next])
  }

  /** Rows that go when the rows of `gone` are physically deleted: a topic takes its cards along. */
  predicate Falls(rows: map<Key, Row>, gone: set<Key>, k: Key)
    requires k in rows
  {
    k in gone || (rows[k].body.CardBody? && Key(Topics, rows[k].body.topicId) in gone)
  }

  function RemoveRows(rows: map<Key, Row>, gone: set<Key>): map<Key, Row> {
    map k | k in rows && !Falls(rows, gone, k) :: rows[k]
  }

  // ----- titles -----

  predicate LiveTitle(rows: map<Key, Row>, user: Id, title: string, k: Key) {
    k in rows && k.table.Topics? && rows[k].owner == user && Live(rows[k])
    && rows[k].body.TopicBody? && rows[k].body.title == title
  }

  /** The partial unique index on (user, title) over live topics. */
  ghost predicate UniqueTitles(rows: map<Key, Row>) {
    forall user, title, k1, k2 :: LiveTitle(rows, user, title, k1) && LiveTitle(rows, user, title, k2) ==> k1 == k2
  }

  /** Another live topic of the user already carries the title. */
  predicate Clashes(rows: map<Key, Row>, user: Id, id: Id, title: string, k: Key) {
    LiveTitle(rows, user, title, k) && k.id != id
  }

  function ShortId(id: Id): string {
    if |id| <= 4 then id else id[..4]
  }

  function Disambiguated(title: string, id: Id): string {
    title + " (" + ShortId(id) + ")"
  }

  function Retitled(row: Row, title: string): Row {
    if row.body.TopicBody? then row.(body := row.body.(title := title)) else row
  }

  /** The later edit keeps the title; on a tie, the greater id. */
  predicate IncomingKeepsTitle(incoming: Id, incomingAt: Time, existing: Id, existingAt: Time) {
    incomingAt > existingAt || (incomingAt == existingAt && Compare(incoming, existing) > 0)
  }

  /** Settles a clash with the topic at `other`: renames the loser if it is stored. */
  function SettleTitle(s: Server, user: Id, id: Id, title: string, at: Time, other: Key, now: Time): (Server, Conflict)
    requires other in s.rows
  {
    var loser := if IncomingKeepsTitle(id, at, other.id, s.rows[other].updatedAt) then other.id else id;
    var newTitle := Disambiguated(title, loser);
    var k := Key(Topics, loser);
    (if k in s.rows then PutRow(s, user, k, Retitled(s.rows[k], newTitle).(updatedAt := now)) else s,
     Conflict(loser, title, newTitle, now))
  }

  /** The clash an incoming title meets, if any. */
  ghost function FindClash(rows: map<Key, Row>, user: Id, id: Id, title: string): (r: Option<Key>)
    ensures r.None? ==> forall k :: !Clashes(rows, user, id, title, k)
    ensures r.Some? ==> Clashes(rows, user, id, title, r.value)
  {
    if exists k :: Clashes(rows, user, id, title, k)
    then var k :| Clashes(rows, user, id, title, k); Some(k)
    else None
  }

  // ----- the three kinds of apply -----

  /** The payload an upsert carries for its own table. */
  function PayloadOf(m: Mutation): (r: Option<Record>)
    ensures r.Some? ==> r == m.payload && r.value.body.TopicBody? == m.key.table.Topics?
  {
    if m.payload.Some? && m.payload.value.body.TopicBody? == m.key.table.Topics? then m.payload else None
  }

  /** The row an upsert stores: a new row keeps the record's `deletedAt`, an update clears it. */
  function UpsertRow(s: Server, user: Id, k: Key, r: Record): Row {
    if k in s.rows then s.rows[k].(body := StoredBody(r.body), updatedAt := r.updatedAt, deletedAt := None)
    else Row(user, StoredBody(r.body), r.updatedAt, Truthy(r.deletedAt), 0)
  }

  predicate Loses(s: Server, k: Key, device: Id, r: Record) {
    k in s.rows && !ShouldApplyIncoming(Some(s.rows[k].updatedAt), None, Some(k.id), r.updatedAt, device, r.id)
  }

  ghost function ApplyTopicUpsert(s: Server, user: Id, device: Id, m: Mutation, now: Time): Tx
    requires m.key.table.Topics?
  {
    var payload := PayloadOf(m);
    if payload.None? then Abort(Malformed("Topic upsert missing payload")) else
    var r := payload.value;
    var k := Key(Topics, r.id);
    if k in s.rows && s.rows[k].owner != user then Abort(Forbidden)
    else if Loses(s, k, device, r) then Commit(s, None)
    else
      var clash := FindClash(s.rows, user, r.id, r.body.title);
      var settled :=
        if clash.None? then (s, None)
        else var (s1, c) := SettleTitle(s, user, r.id, r.body.title, r.updatedAt, clash.value, now); (s1, Some(c));
      // Each statement meets the unique index as it runs.
      if !UniqueTitles(settled.0.rows) then Abort(ApplyFailed) else
      var title := if settled.1.Some? && settled.1.value.topicId == r.id then settled.1.value.newTitle else r.body.title;
      var stored := PutRow(settled.0, user, k, Retitled(UpsertRow(settled.0, user, k, r), title));
      if !UniqueTitles(stored.rows) then Abort(ApplyFailed) else Commit(stored, settled.1)
  }

  function ApplyCardUpsert(s: Server, user: Id, device: Id, m: Mutation): Tx
    requires m.key.table.Cards?
  {
    var payload := PayloadOf(m);
    if payload.None? then Abort(Malformed("Card upsert missing payload")) else
    var r := payload.value;
    var k := Key(Cards, r.id);
    var topic := Key(Topics, r.body.topicId);
    if topic !in s.rows then Abort(TopicNotSynced)
    else if s.rows[topic].owner != user then Abort(Forbidden)
    else if k in s.rows && s.rows[k].owner != user then Abort(Forbidden)
    else if Loses(s, k, device, r) then Commit(s, None)
    else Commit(PutRow(s, user, k, UpsertRow(s, user, k, r)), None)
  }

  /** When a delete happened; a zero time reads as absent and means "now". */
  function DeleteTime(m: Mutation, now: Time): Time {
    if m.updatedAt == 0 then now else m.updatedAt
  }

  function ApplyDelete(s: Server, user: Id, m: Mutation, now: Time, hard: bool): Tx {
    var k := m.key;
    var at := DeleteTime(m, now);
    if k !in s.rows then Commit(s, None)
    else if s.rows[k].owner != user then Abort(Forbidden)
    else if s.rows[k].updatedAt > at then Commit(s, None)
    else if hard then Commit(s.(rows := RemoveRows(s.rows, {k})), None)
    else Commit(PutRow(s, user, k, s.rows[k].(deletedAt := Some(at), updatedAt := at)), None)
  }

  /** One apply transaction: lock the user's sequence, write, mark the op applied. */
  ghost function ApplyMutation(s: Server, user: Id, device: Id, m: Mutation, now: Time, hard: bool): Tx {
    if user !in s.seqs then Abort(ApplyFailed) else
    var tx :=
      if m.operation.Delete? then ApplyDelete(s, user, m, now, hard)
      else if m.key.table.Topics? then ApplyTopicUpsert(s, user, device, m, now)
      else ApplyCardUpsert(s, user, device, m);
    match tx
    case Commit(s1, conflict) => Commit(s1.(ops := s1.ops + {(user, m.opId)}), conflict)
    case Abort(_) => tx
  }

  // ----- what every transaction keeps -----

  /** An upsert that passed validation: its payload is for the record the mutation names. */
  predicate Addressed(m: Mutation) {
    m.operation.Upsert? ==> PayloadOf(m).Some? && m.payload.value.id == m.key.id
  }

  predicate WrittenSince(before: Server, user: Id, row: Row, after: Server) {
    row.owner == user && SeqOf(before, user) < row.serverSeq <= SeqOf(after, user)
  }

  /** A user's rows hold pairwise different sequences, none above the user's counter. */
  ghost predicate SeqsSound(s: Server, user: Id) {
    && (forall k :: k in s.rows && s.rows[k].owner == user ==> s.rows[k].serverSeq <= SeqOf(s, user))
    && (forall j, k :: (j in s.rows && k in s.rows && s.rows[j].owner == user && s.rows[k].owner == user
         && s.rows[j].serverSeq == s.rows[k].serverSeq) ==> j == k)
  }

  /** From `s` to `s1`, rows stay as they are, vanish, or are rewritten under a fresh sequence. */
  ghost predicate Advances(s: Server, user: Id, s1: Server) {
    && s1.seqs.Keys == s.seqs.Keys && s1.devices == s.devices && s.ops <= s1.ops
    && SeqOf(s, user) <= SeqOf(s1, user)
    && (forall u :: u != user ==> SeqOf(s, u) == SeqOf(s1, u))
    && (forall k :: k in s1.rows ==> (k in s.rows && s1.rows[k] == s.rows[k]) || WrittenSince(s, user, s1.rows[k], s1))
    && (SeqsSound(s, user) ==> SeqsSound(s1, user))
  }

  lemma AdvancesTransitive(s: Server, user: Id, s1: Server, s2: Server)
    requires Advances(s, user, s1) && Advances(s1, user, s2)
    ensures Advances(s, user, s2)
  {
  }

  lemma PutRowAdvances(s: Server, user: Id, k: Key, row: Row)
    requires user in s.seqs && row.owner == user
    ensures Advances(s, user, PutRow(s, user, k, row))
  {
  }

  lemma RemoveRowsAdvances(s: Server, user: Id, gone: set<Key>)
    ensures Advances(s, user, s.(rows := RemoveRows(s.rows, gone)))
  {
  }

  lemma TopicUpsertAdvances(s: Server, user: Id, device: Id, m: Mutation, now: Time)
    requires user in s.seqs && m.key.table.Topics? && ApplyTopicUpsert(s, user, device, m, now).Commit?
    ensures Advances(s, user, ApplyTopicUpsert(s, user, device, m, now).server)
  {
    var r := PayloadOf(m).value;
    var k := Key(Topics, r.id);
    if !Loses(s, k, device, r) {
      var clash := FindClash(s.rows, user, r.id, r.body.title);
      var s1 := s;
      if clash.Some? {
        var settled := SettleTitle(s, user, r.id, r.body.title, r.updatedAt, clash.value, now);
        s1 := settled.0;
        var loser := Key(Topics, settled.1.topicId);
        if loser in s.rows {
          PutRowAdvances(s, user, loser, Retitled(s.rows[loser], settled.1.newTitle).(updatedAt := now));
        }
      }
      var s2 := ApplyTopicUpsert(s, user, device, m, now).server;
      PutRowAdvances(s1, user, k, s2.rows[k].(serverSeq := 0));
      assert s2 == PutRow(s1, user, k, s2.rows[k].(serverSeq := 0));
      AdvancesTransitive(s, user, s1, s2);
    }
  }

  lemma DeleteAdvances(s: Server, user: Id, m: Mutation, now: Time, hard: bool)
    requires user in s.seqs && ApplyDelete(s, user, m, now, hard).Commit?
    ensures Advances(s, user, ApplyDelete(s, user, m, now, hard).server)
  {
    var k := m.key;
    if k in s.rows && hard {
      RemoveRowsAdvances(s, user, {k});
    } else if k in s.rows {
      var at := DeleteTime(m, now);
      PutRowAdvances(s, user, k, s.rows[k].(deletedAt := Some(at), updatedAt := at));
    }
  }

  lemma CardUpsertAdvances(s: Server, user: Id, device: Id, m: Mutation)
    requires user in s.seqs && m.key.table.Cards? && ApplyCardUpsert(s, user, device, m).Commit?
    ensures Advances(s, user, ApplyCardUpsert(s, user, device, m).server)
  {
    var r := PayloadOf(m).value;
    PutRowAdvances(s, user, Key(Cards, r.id), UpsertRow(s, user, Key(Cards, r.id), r));
  }

  lemma MarkAdvances(s: Server, user: Id, s1: Server, op: (Id, Id))
    requires Advances(s, user, s1)
    ensures Advances(s, user, s1.(ops := s1.ops + {op}))
  {
  }

  /** A commit leaves a row alone, drops it, or rewrites it under a sequence above every earlier one. */
  lemma ApplyAdvances(s: Server, user: Id, device: Id, m: Mutation, now: Time, hard: bool)
    requires ApplyMutation(s, user, device, m, now, hard).Commit?
    ensures Advances(s, user, ApplyMutation(s, user, device, m, now, hard).server)
  {
    if m.operation.Delete? {
      DeleteAdvances(s, user, m, now, hard);
      MarkAdvances(s, user, ApplyDelete(s, user, m, now, hard).server, (user, m.opId));
    } else if m.key.table.Topics? {
      TopicUpsertAdvances(s, user, device, m, now);
      MarkAdvances(s, user, ApplyTopicUpsert(s, user, device, m, now).server, (user, m.opId));
    } else {
      CardUpsertAdvances(s, user, device, m);
      MarkAdvances(s, user, ApplyCardUpsert(s, user, device, m).server, (user, m.opId));
    }
  }

  /** Every card hangs on a stored topic of its own owner. */
  ghost predicate ForeignKeysHold(rows: map<Key, Row>) {
    forall k :: k in rows && rows[k].body.CardBody? ==>
      var topic := Key(Topics, rows[k].body.topicId);
      topic in rows && rows[topic].owner == rows[k].owner
  }

  /** Topics hold topic bodies and cards card bodies. */
  ghost predicate BodiesFit(rows: map<Key, Row>) {
    forall k :: k in rows ==> rows[k].body.TopicBody? == k.table.Topics?
  }

  ghost predicate Integrity(rows: map<Key, Row>) {
    BodiesFit(rows) && ForeignKeysHold(rows) && UniqueTitles(rows)
  }

  lemma RemoveRowsKeepsIntegrity(rows: map<Key, Row>, gone: set<Key>)
    requires Integrity(rows)
    ensures Integrity(RemoveRows(rows, gone))
  {
    var left := RemoveRows(rows, gone);
    forall k | k in left && left[k].body.CardBody?
      ensures Key(Topics, left[k].body.topicId) in left
    {
      assert Key(Topics, rows[k].body.topicId) in rows;
    }
    TitlesOnlyLeave(rows, left);
  }

  lemma TitlesOnlyLeave(rows: map<Key, Row>, left: map<Key, Row>)
    requires UniqueTitles(rows)
    requires forall u, t, k :: LiveTitle(left, u, t, k) ==> LiveTitle(rows, u, t, k)
    ensures UniqueTitles(left)
  {
  }

  lemma PutRowKeepsShape(s: Server, user: Id, k: Key, row: Row)
    requires BodiesFit(s.rows) && ForeignKeysHold(s.rows)
    requires row.body.TopicBody? == k.table.Topics? && row.owner == user
    requires k in s.rows ==> s.rows[k].owner == user
    requires row.body.CardBody? ==> var t := Key(Topics, row.body.topicId); t in s.rows && s.rows[t].owner == user
    ensures BodiesFit(PutRow(s, user, k, row).rows) && ForeignKeysHold(PutRow(s, user, k, row).rows)
  {
    var rows := PutRow(s, user, k, row).rows;
    forall j | j in rows && rows[j].body.CardBody?
      ensures var t := Key(Topics, rows[j].body.topicId); t in rows && rows[t].owner == rows[j].owner
    {
      if j != k { assert Key(Topics, s.rows[j].body.topicId) in s.rows; }
    }
  }

  lemma TopicUpsertKeepsIntegrity(s: Server, user: Id, device: Id, m: Mutation, now: Time)
    requires m.key.table.Topics? && ApplyTopicUpsert(s, user, device, m, now).Commit? && Integrity(s.rows)
    ensures Integrity(ApplyTopicUpsert(s, user, device, m, now).server.rows)
  {
    var r := PayloadOf(m).value;
    var k := Key(Topics, r.id);
    if !Loses(s, k, device, r) {
      var clash := FindClash(s.rows, user, r.id, r.body.title);
      var s1 := s;
      if clash.Some? {
        var settled := SettleTitle(s, user, r.id, r.body.title, r.updatedAt, clash.value, now);
        s1 := settled.0;
        var loser := Key(Topics, settled.1.topicId);
        if loser in s.rows {
          PutRowKeepsShape(s, user, loser, Retitled(s.rows[loser], settled.1.newTitle).(updatedAt := now));
        }
      }
      var s2 := ApplyTopicUpsert(s, user, device, m, now).server;
      PutRowKeepsShape(s1, user, k, s2.rows[k].(serverSeq := 0));
      assert s2 == PutRow(s1, user, k, s2.rows[k].(serverSeq := 0));
    }
  }

  /** Every transaction keeps body kinds, foreign keys and unique titles. */
  lemma ApplyKeepsIntegrity(s: Server, user: Id, device: Id, m: Mutation, now: Time, hard: bool)
    requires ApplyMutation(s, user, device, m, now, hard).Commit? && Integrity(s.rows)
    ensures Integrity(ApplyMutation(s, user, device, m, now, hard).server.rows)
  {
    if m.operation.Upsert? && m.key.table.Topics? {
      TopicUpsertKeepsIntegrity(s, user, device, m, now);
    } else {
      var s1 := ApplyMutation(s, user, device, m, now, hard).server;
      var k := if m.operation.Delete? then m.key else Key(Cards, PayloadOf(m).value.id);
      if s1.rows == RemoveRows(s.rows, {k}) {
        RemoveRowsKeepsIntegrity(s.rows, {k});
      } else if s1.rows != s.rows {
        PutRowKeepsShape(s, user, k, s1.rows[k].(serverSeq := 0));
        assert s1.rows == PutRow(s, user, k, s1.rows[k].(serverSeq := 0)).rows;
        TitlesOnlyLeave(s.rows, s1.rows);
      }
    }
  }

  /** One user's apply leaves every row of every other user exactly as it was. */
  lemma ApplyIsolatesUsers(s: Server, user: Id, device: Id, m: Mutation, now: Time, hard: bool, k: Key)
    requires ApplyMutation(s, user, device, m, now, hard).Commit?
    requires ForeignKeysHold(s.rows)
    requires k in s.rows && s.rows[k].owner != user
    ensures k in ApplyMutation(s, user, device, m, now, hard).server.rows
    ensures ApplyMutation(s, user, device, m, now, hard).server.rows[k] == s.rows[k]
  {
    if m.operation.Delete? && hard && s.rows[k].body.CardBody? {
      assert Key(Topics, s.rows[k].body.topicId) in s.rows;
    }
  }

  /** After a committed upsert the server holds the record at least as new as what was pushed. */
  lemma ApplyDominates(s: Server, user: Id, device: Id, m: Mutation, now: Time, hard: bool)
    requires device != "" && Addressed(m) && m.operation.Upsert?
    requires ApplyMutation(s, user, device, m, now, hard).Commit?
    ensures var s1 := ApplyMutation(s, user, device, m, now, hard).server;
      m.key in s1.rows && s1.rows[m.key].owner == user && s1.rows[m.key].updatedAt >= m.payload.value.updatedAt
  {
    var r := m.payload.value;
    if m.key in s.rows {
      ServerTieGoesToIncoming(s.rows[m.key].updatedAt, r.updatedAt, device, r.id);
    }
  }
}
