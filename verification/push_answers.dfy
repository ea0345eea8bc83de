// What the answer to a push says: which operations it accepts and refuses, which renames it reports, and
// what the device that takes it over has in common with the server.

module PushAnswers {
  import opened SyncTypes
  import opened LastWriteWins
  import opened ServerApply
  import opened Titles
  import opened Validation
  import opened PushBatch
  import opened Outbox
  import opened ClientPull
  import opened SyncSystem

  /** A batch in the order it is applied, the tables it meets, and the surroundings of each operation. */
  datatype Push = Push(s: Server, user: Id, device: Id, ms: seq<Mutation>, hard: bool, envs: seq<Env>)

  ghost predicate Fits(p: Push) { |p.ms| <= |p.envs| }

  ghost function AckOf(p: Push): Ack
    requires Fits(p)
  {
    ApplyOrdered(p.s, p.user, p.device, p.ms, p.hard, p.envs).1
  }

  ghost function EndOf(p: Push): Server
    requires Fits(p)
  {
    ApplyOrdered(p.s, p.user, p.device, p.ms, p.hard, p.envs).0
  }

  /** The push of the first operations alone. */
  function First(p: Push, n: nat): Push
    requires n <= |p.ms|
  {
    p.(ms := p.ms[..n])
  }

  /** The tables as an operation meets them. */
  ghost function MetBy(p: Push, i: nat): Server
    requires Fits(p) && i <= |p.ms|
  {
    EndOf(First(p, i))
  }

  /** What the transaction of an operation would do. */
  ghost function TxAt(p: Push, i: nat): Tx
    requires Fits(p) && i < |p.ms|
  {
    ApplyMutation(MetBy(p, i), p.user, p.device, p.ms[i], p.envs[i].now, p.hard)
  }

  ghost predicate LoggedAt(p: Push, i: nat)
    requires Fits(p) && i < |p.ms|
  {
    (p.user, p.ms[i].opId) in MetBy(p, i).ops
  }

  /** The media of a card upsert cannot be confirmed. */
  ghost predicate MediaFailsAt(p: Push, i: nat)
    requires Fits(p) && i < |p.ms|
  {
    p.envs[i].fault.MediaFault? && p.ms[i].operation.Upsert? && p.ms[i].key.table.Cards?
  }

  /** The transaction runs: the op log can be asked and does not have the operation, and its media are there. */
  ghost predicate RunsAt(p: Push, i: nat)
    requires Fits(p) && i < |p.ms|
  {
    !p.envs[i].fault.Unavailable? && !LoggedAt(p, i) && !MediaFailsAt(p, i)
  }

  ghost predicate CommitsAt(p: Push, i: nat)
    requires Fits(p) && i < |p.ms|
  {
    RunsAt(p, i) && TxAt(p, i).Commit?
  }

  /** The operation commits, and nothing goes wrong afterwards. */
  ghost predicate ToldAt(p: Push, i: nat)
    requires Fits(p) && i < |p.ms|
  {
    CommitsAt(p, i) && !p.envs[i].fault.UnreportedCommit?
  }

  ghost predicate AcceptedAt(p: Push, i: nat)
    requires Fits(p) && i < |p.ms|
  {
    (!p.envs[i].fault.Unavailable? && LoggedAt(p, i)) || ToldAt(p, i)
  }

  /** The operation commits and its transaction settled this clash. */
  ghost predicate SettledAt(p: Push, i: nat, c: Conflict)
    requires Fits(p) && i < |p.ms|
  {
    CommitsAt(p, i) && TxAt(p, i).conflict == Some(c)
  }

  ghost predicate RefusedAt(p: Push, i: nat, failure: Failure)
    requires Fits(p) && i < |p.ms|
  {
    var fault := p.envs[i].fault;
    if fault.Unavailable? then failure == ApplyFailed
    else if LoggedAt(p, i) then false
    else if MediaFailsAt(p, i) then failure == MediaRefused(fault.again)
    else match TxAt(p, i)
      case Abort(why) => failure == why
      case Commit(_, _) => fault.UnreportedCommit? && failure == ApplyFailed
  }

  // ----- the answer, operation by operation -----

  /** One turn of the loop: the tables move exactly when the operation commits, and the verdict is as it fared. */
  lemma TurnIs(p: Push, i: nat)
    requires Fits(p) && i < |p.ms|
    ensures MetBy(p, i + 1) == if CommitsAt(p, i) then TxAt(p, i).server else MetBy(p, i)
    ensures var verdict := ApplyOp(MetBy(p, i), p.user, p.device, p.ms[i], p.hard, p.envs[i]).1;
      && (verdict.Accepted? <==> AcceptedAt(p, i))
      && (forall c :: verdict == Accepted(Some(c)) <==> SettledAt(p, i, c) && ToldAt(p, i))
      && (forall f :: verdict == Verdict.Refused(f) <==> RefusedAt(p, i, f))
      && AckOf(First(p, i + 1)) == Noted(AckOf(First(p, i)), p.ms[i].opId, verdict)
  {
    assert p.ms[..i + 1][..i] == p.ms[..i];
  }

  /** What the first `n` operations leave in the answer. */
  ghost predicate AnswerIs(p: Push, n: nat)
    requires Fits(p) && n <= |p.ms|
  {
    var ack := AckOf(First(p, n));
    && (forall o :: o in ack.accepted <==> exists i :: 0 <= i < n && p.ms[i].opId == o && AcceptedAt(p, i))
    && (forall c :: c in ack.conflicts <==> exists i :: 0 <= i < n && SettledAt(p, i, c) && ToldAt(p, i))
    && (forall r :: r in ack.rejected <==> exists i :: 0 <= i < n && p.ms[i].opId == r.opId && RefusedAt(p, i, r.failure))
  }

  lemma NextAnswerIs(p: Push, n: nat)
    requires Fits(p) && n < |p.ms| && AnswerIs(p, n)
    ensures AnswerIs(p, n + 1)
  {
    TurnIs(p, n);
    var before, ack := AckOf(First(p, n)), AckOf(First(p, n + 1));
    forall o ensures o in ack.accepted <==> o in before.accepted || (p.ms[n].opId == o && AcceptedAt(p, n)) {
    }
    forall c ensures c in ack.conflicts <==> c in before.conflicts || (SettledAt(p, n, c) && ToldAt(p, n)) {
    }
    forall r: Rejection ensures r in ack.rejected <==> r in before.rejected || (p.ms[n].opId == r.opId && RefusedAt(p, n, r.failure)) {
    }
  }

  lemma {:induction false} AnswerIsSo(p: Push, n: nat)
    requires Fits(p) && n <= |p.ms|
    ensures AnswerIs(p, n)
  {
    if n > 0 {
      AnswerIsSo(p, n - 1);
      NextAnswerIs(p, n - 1);
    } else {
      assert p.ms[..0] == [];
    }
  }

  /** An answer to a whole push, `p` being what is admitted of it. An operation is accepted exactly if it was
      logged before, the log could be asked, or if it committed and nothing went wrong afterwards; a rename is
      reported exactly if an operation that committed, and was not failed afterwards, settled that clash; and an
      operation is refused exactly if it is malformed, or for the reason it met. */
  ghost predicate IsAnswer(ack: Ack, p: Push, clamped: seq<Mutation>, check: Check)
    requires Fits(p)
  {
    && (forall o :: o in ack.accepted <==> exists i :: 0 <= i < |p.ms| && p.ms[i].opId == o && AcceptedAt(p, i))
    && (forall c :: c in ack.conflicts <==> exists i :: 0 <= i < |p.ms| && SettledAt(p, i, c) && ToldAt(p, i))
    && (forall r :: r in ack.rejected <==>
          (exists m :: m in clamped && r.opId == m.opId && check(m).Some? && r.failure == Malformed(check(m).value))
          || exists i :: 0 <= i < |p.ms| && p.ms[i].opId == r.opId && RefusedAt(p, i, r.failure))
  }

  lemma PushAnswerIs(s: Server, user: Id, device: Id, ms: seq<Mutation>, now: Time, hard: bool, check: Check, envs: seq<Env>)
    requires |Admitted(ms, now, check)| <= |envs|
    ensures IsAnswer(ApplyPush(s, user, device, ms, now, hard, check, envs).1,
                     Push(s, user, device, Admitted(ms, now, check), hard, envs), ClampAll(ms, now), check)
  {
    var p := Push(s, user, device, Admitted(ms, now, check), hard, envs);
    AnswerIsSo(p, |p.ms|);
    assert p.ms[..|p.ms|] == p.ms;
    var clamped := ClampAll(ms, now);
    PartitionIsFaithful(clamped, check);
    var ack, loop := ApplyPush(s, user, device, ms, now, hard, check, envs).1, AckOf(p);
    forall r: Rejection ensures r in ack.rejected <==> r in MalformedOf(clamped, check) || r in loop.rejected {
    }
    forall r: Rejection
      ensures r in MalformedOf(clamped, check)
        <==> exists m :: m in clamped && r.opId == m.opId && check(m).Some? && r.failure == Malformed(check(m).value)
    {
      if m :| m in clamped && r.opId == m.opId && check(m).Some? && r.failure == Malformed(check(m).value) {
        assert r == Rejection(m.opId, Malformed(check(m).value));
      }
    }
  }

  // ----- renames -----

  function RowOf(s: Server, k: Key): Option<Row> {
    if k in s.rows then Some(s.rows[k]) else None
  }

  /** The operation commits and renames the topic. */
  ghost predicate RenamesAt(p: Push, i: nat, k: Key)
    requires Fits(p) && i < |p.ms|
  {
    CommitsAt(p, i) && TxAt(p, i).conflict.Some? && Key(Topics, TxAt(p, i).conflict.value.topicId) == k
  }

  /** An operation on another record leaves a topic as it is, unless it renames it, at the server's time. */
  lemma OthersLeave(s: Server, user: Id, device: Id, m: Mutation, now: Time, hard: bool, k: Key)
    requires ApplyMutation(s, user, device, m, now, hard).Commit? && Addressed(m) && m.key != k && k.table.Topics?
    ensures var tx := ApplyMutation(s, user, device, m, now, hard);
      if tx.conflict.Some? && Key(Topics, tx.conflict.value.topicId) == k then
        RowOf(s, k).Some? ==>
          && RowOf(tx.server, k).Some? && RowOf(tx.server, k).value.updatedAt == tx.conflict.value.updatedAt
          && (RowOf(s, k).value.body.TopicBody? ==>
                RowOf(tx.server, k).value.body.TopicBody? && RowOf(tx.server, k).value.body.title == tx.conflict.value.newTitle)
      else BodiesFit(s.rows) ==> RowOf(tx.server, k) == RowOf(s, k)
  {
  }

  /** What an operation makes of its own stored topic, unless it is renamed: nothing if it is older; else an
      upsert gives it its title, a soft delete leaves the title, a hard delete removes it. */
  lemma OwnWrites(s: Server, user: Id, device: Id, m: Mutation, now: Time, hard: bool)
    requires ApplyMutation(s, user, device, m, now, hard).Commit? && Addressed(m) && device != ""
    requires m.key.table.Topics? && m.key in s.rows && s.rows[m.key].body.TopicBody?
    ensures var tx := ApplyMutation(s, user, device, m, now, hard);
      var k, row := m.key, s.rows[m.key];
      if m.operation.Upsert? then
        k in tx.server.rows && tx.server.rows[k].body.TopicBody?
        && tx.server.rows[k].body.title ==
             if m.payload.value.updatedAt < row.updatedAt then row.body.title
             else if tx.conflict.Some? && Key(Topics, tx.conflict.value.topicId) == k then tx.conflict.value.newTitle
             else m.payload.value.body.title
      else if hard && DeleteTime(m, now) >= row.updatedAt then k !in tx.server.rows
      else k in tx.server.rows && tx.server.rows[k].body == row.body
  {
    if m.operation.Upsert? {
      ServerTieGoesToIncoming(s.rows[m.key].updatedAt, m.payload.value.updatedAt, device, m.key.id);
    }
  }

  /** A batch as clients send it, to tables that keep their constraints: each record at most once, each upsert
      with its own record, and no failure between a commit and its report. */
  ghost predicate IsOrderly(p: Push) {
    && Fits(p) && p.device != "" && Integrity(p.s.rows)
    && (forall i :: 0 <= i < |p.ms| ==> Addressed(p.ms[i]))
    && (forall i, j :: 0 <= i < j < |p.ms| ==> p.ms[i].key != p.ms[j].key)
    && (forall i :: 0 <= i < |p.ms| ==> !p.envs[i].fault.UnreportedCommit?)
  }

  lemma {:induction false} MetKeepsIntegrity(p: Push, i: nat)
    requires Fits(p) && i <= |p.ms| && Integrity(p.s.rows)
    ensures Integrity(MetBy(p, i).rows)
  {
    if i > 0 {
      MetKeepsIntegrity(p, i - 1);
      TurnIs(p, i - 1);
      if CommitsAt(p, i - 1) {
        ApplyKeepsIntegrity(MetBy(p, i - 1), p.user, p.device, p.ms[i - 1], p.envs[i - 1].now, p.hard);
      }
    } else {
      assert p.ms[..0] == [];
    }
  }

  /** From one operation to a later one nothing is written to the topic but by a rename or its own operation. */
  lemma {:induction false} TopicStays(p: Push, a: nat, b: nat, k: Key)
    requires IsOrderly(p) && a <= b <= |p.ms| && k.table.Topics?
    requires forall i :: a <= i < b ==> p.ms[i].key != k && !RenamesAt(p, i, k)
    ensures RowOf(MetBy(p, b), k) == RowOf(MetBy(p, a), k)
    decreases b
  {
    if a < b {
      TopicStays(p, a, b - 1, k);
      TurnIs(p, b - 1);
      MetKeepsIntegrity(p, b - 1);
      if CommitsAt(p, b - 1) {
        OthersLeave(MetBy(p, b - 1), p.user, p.device, p.ms[b - 1], p.envs[b - 1].now, p.hard, k);
      }
    }
  }

  /** The last rename of the topic in the batch. */
  ghost predicate IsLastRename(p: Push, j: nat, k: Key, c: Conflict)
    requires Fits(p)
  {
    j < |p.ms| && SettledAt(p, j, c) && Key(Topics, c.topicId) == k
    && forall i :: j < i < |p.ms| ==> !RenamesAt(p, i, k)
  }

  lemma ReportsGrow(p: Push, i: nat)
    requires IsOrderly(p) && i < |p.ms|
    ensures var before := AckOf(First(p, i)).conflicts;
      AckOf(First(p, i + 1)).conflicts
      == if CommitsAt(p, i) && TxAt(p, i).conflict.Some? then before + [TxAt(p, i).conflict.value] else before
  {
    TurnIs(p, i);
    if CommitsAt(p, i) && TxAt(p, i).conflict.Some? {
      assert SettledAt(p, i, TxAt(p, i).conflict.value) && ToldAt(p, i);
    }
  }

  lemma LastAboutGrows(conflicts: seq<Conflict>, c: Conflict, k: Key)
    ensures LastAbout(conflicts + [c], k) == if Key(Topics, c.topicId) == k then Some(c) else LastAbout(conflicts, k)
  {
    assert (conflicts + [c])[..|conflicts|] == conflicts;
  }

  /** The rename of the topic by an operation, if any. */
  ghost function RenameAt(p: Push, i: nat, k: Key): Option<Conflict>
    requires Fits(p) && i < |p.ms|
  {
    if RenamesAt(p, i, k) then TxAt(p, i).conflict else None
  }

  lemma LastReportedGrows(p: Push, i: nat, k: Key)
    requires IsOrderly(p) && i < |p.ms|
    ensures LastAbout(AckOf(First(p, i + 1)).conflicts, k)
      == if RenameAt(p, i, k).Some? then RenameAt(p, i, k) else LastAbout(AckOf(First(p, i)).conflicts, k)
  {
    ReportsGrow(p, i);
    if CommitsAt(p, i) && TxAt(p, i).conflict.Some? {
      LastAboutGrows(AckOf(First(p, i)).conflicts, TxAt(p, i).conflict.value, k);
    }
  }

  /** The renames of the topic by the first operations, each at its place. */
  ghost function Renames(p: Push, n: nat, k: Key): (r: seq<Option<Conflict>>)
    requires Fits(p) && n <= |p.ms|
    ensures |r| == n && forall i :: 0 <= i < n ==> r[i] == RenameAt(p, i, k)
  {
    seq(n, i requires 0 <= i < n => RenameAt(p, i, k))
  }

  /** The last of them, with its place. */
  function LastOf(renames: seq<Option<Conflict>>): (r: Option<(nat, Conflict)>)
    ensures r.None? <==> forall i :: 0 <= i < |renames| ==> renames[i].None?
    ensures r.Some? ==> var (j, c) := r.value;
      j < |renames| && renames[j] == Some(c) && forall i :: j < i < |renames| ==> renames[i].None?
  {
    if renames == [] then None
    else
      var n := |renames| - 1;
      if renames[n].Some? then Some((n, renames[n].value)) else LastOf(renames[..n])
  }

  lemma LastOfGrows(renames: seq<Option<Conflict>>, next: Option<Conflict>)
    ensures LastOf(renames + [next]) == if next.Some? then Some((|renames|, next.value)) else LastOf(renames)
  {
    assert (renames + [next])[..|renames|] == renames;
  }

  lemma NothingReported(p: Push, k: Key)
    requires Fits(p)
    ensures LastAbout(AckOf(First(p, 0)).conflicts, k).None?
  {
    assert p.ms[..0] == [];
  }

  /** What the reports end with for a topic is its last rename. */
  lemma {:induction false} LastReported(p: Push, n: nat, k: Key)
    requires IsOrderly(p) && n <= |p.ms|
    ensures var last := LastOf(Renames(p, n, k));
      LastAbout(AckOf(First(p, n)).conflicts, k) == if last.Some? then Some(last.value.1) else None
  {
    if n == 0 {
      NothingReported(p, k);
    } else {
      var before, last := Renames(p, n - 1, k), RenameAt(p, n - 1, k);
      LastReported(p, n - 1, k);
      LastReportedGrows(p, n - 1, k);
      LastOfGrows(before, last);
      assert Renames(p, n, k) == before + [last];
    }
  }

  /** The topic's own operation, coming after the rename, leaves the title alone: it is older than the rename,
      or a soft delete, or an upsert with that very title. */
  predicate LeavesTitle(m: Mutation, c: Conflict, now: Time, hard: bool) {
    if m.operation.Upsert? then
      m.payload.Some? && (m.payload.value.updatedAt < c.updatedAt || (m.payload.value.body.TopicBody? && m.payload.value.body.title == c.newTitle))
    else !hard || DeleteTime(m, now) < c.updatedAt
  }

  /** The topic on the server has the title of the rename. */
  ghost predicate HasTitle(s: Server, k: Key, c: Conflict) {
    k in s.rows && s.rows[k].body.TopicBody? && s.rows[k].body.title == c.newTitle
  }

  /** The rename as it took place: the topic has the new title, at the time of the rename if it was stored. */
  lemma RenamedThen(p: Push, j: nat, k: Key, c: Conflict)
    requires IsOrderly(p) && IsLastRename(p, j, k, c)
    ensures HasTitle(MetBy(p, j + 1), k, c)
    ensures p.ms[j].key != k ==> MetBy(p, j + 1).rows[k].updatedAt == c.updatedAt
  {
    TurnIs(p, j);
    MetKeepsIntegrity(p, j);
    var s, m := MetBy(p, j), p.ms[j];
    RenameWrites(s, p.user, p.device, m, p.envs[j].now, p.hard, c);
  }

  /** A settled clash leaves the topic it names with the new title. */
  lemma RenameWrites(s: Server, user: Id, device: Id, m: Mutation, now: Time, hard: bool, c: Conflict)
    requires ApplyMutation(s, user, device, m, now, hard).Commit? && ApplyMutation(s, user, device, m, now, hard).conflict == Some(c)
    requires Addressed(m) && BodiesFit(s.rows)
    ensures var k, s1 := Key(Topics, c.topicId), ApplyMutation(s, user, device, m, now, hard).server;
      HasTitle(s1, k, c) && (m.key != k ==> k in s.rows && s1.rows[k].updatedAt == c.updatedAt)
  {
  }

  /** The topic's own operation, coming when the topic is as the rename left it. */
  lemma OwnThen(p: Push, i: nat, k: Key, c: Conflict)
    requires IsOrderly(p) && i < |p.ms| && p.ms[i].key == k && k.table.Topics? && !RenamesAt(p, i, k)
    requires HasTitle(MetBy(p, i), k, c) && MetBy(p, i).rows[k].updatedAt == c.updatedAt
    ensures HasTitle(MetBy(p, i + 1), k, c) <==> (CommitsAt(p, i) ==> LeavesTitle(p.ms[i], c, p.envs[i].now, p.hard))
  {
    TurnIs(p, i);
    if CommitsAt(p, i) {
      OwnWrites(MetBy(p, i), p.user, p.device, p.ms[i], p.envs[i].now, p.hard);
    }
  }

  lemma SameRowSameTitle(s: Server, s1: Server, k: Key, c: Conflict)
    requires RowOf(s1, k) == RowOf(s, k)
    ensures HasTitle(s1, k, c) == HasTitle(s, k, c)
    ensures k in s.rows ==> k in s1.rows && s1.rows[k] == s.rows[k]
  {
  }

  /** Up to its own operation the topic is as the rename left it. */
  lemma RenamedUntil(p: Push, j: nat, i: nat, k: Key, c: Conflict)
    requires IsOrderly(p) && IsLastRename(p, j, k, c) && j < i <= |p.ms| && p.ms[j].key != k
    requires forall h :: j < h < i ==> p.ms[h].key != k
    ensures HasTitle(MetBy(p, i), k, c) && MetBy(p, i).rows[k].updatedAt == c.updatedAt
  {
    RenamedThen(p, j, k, c);
    TopicStays(p, j + 1, i, k);
    SameRowSameTitle(MetBy(p, j + 1), MetBy(p, i), k, c);
  }

  /** With its own operation later in the batch. */
  lemma RenameThenOwn(p: Push, j: nat, i: nat, k: Key, c: Conflict)
    requires IsOrderly(p) && IsLastRename(p, j, k, c) && j < i < |p.ms| && p.ms[i].key == k
    ensures HasTitle(MetBy(p, |p.ms|), k, c) <==> (CommitsAt(p, i) ==> LeavesTitle(p.ms[i], c, p.envs[i].now, p.hard))
  {
    RenamedUntil(p, j, i, k, c);
    OwnThen(p, i, k, c);
    TopicStays(p, i + 1, |p.ms|, k);
    SameRowSameTitle(MetBy(p, i + 1), MetBy(p, |p.ms|), k, c);
  }

  /** With its own operation earlier, or none. */
  lemma RenameAlone(p: Push, j: nat, k: Key, c: Conflict)
    requires IsOrderly(p) && IsLastRename(p, j, k, c) && forall i :: j < i < |p.ms| ==> p.ms[i].key != k
    ensures HasTitle(MetBy(p, |p.ms|), k, c)
  {
    RenamedThen(p, j, k, c);
    TopicStays(p, j + 1, |p.ms|, k);
    SameRowSameTitle(MetBy(p, j + 1), MetBy(p, |p.ms|), k, c);
  }

  /** After its last rename in a batch, the topic is stored under the new title exactly if its own operation, if
      that comes later, leaves the title alone. */
  lemma RenameStandsIff(p: Push, j: nat, k: Key, c: Conflict)
    requires IsOrderly(p) && IsLastRename(p, j, k, c)
    ensures HasTitle(EndOf(p), k, c)
      <==> forall i :: j < i < |p.ms| && p.ms[i].key == k && CommitsAt(p, i) ==> LeavesTitle(p.ms[i], c, p.envs[i].now, p.hard)
  {
    assert p.ms[..|p.ms|] == p.ms;
    assert EndOf(p) == MetBy(p, |p.ms|);
    if i :| j < i < |p.ms| && p.ms[i].key == k {
      RenameThenOwn(p, j, i, k, c);
      assert forall h :: j < h < |p.ms| && p.ms[h].key == k ==> h == i;
    } else {
      RenameAlone(p, j, k, c);
    }
  }

  /** The device that takes such an answer over, every rename let in by its index: a local topic the answer
      renames has the title of its last rename, and that is the title the server stores for it exactly if the
      topic's own operation, if that comes later in the batch, leaves the title alone. */
  lemma TitlesAgreeAfterAck(p: Push, rows: map<Key, Local>, k: Key, c: Conflict) returns (j: nat)
    requires IsOrderly(p) && k in rows && rows[k].body.TopicBody? && LastAbout(AckOf(p).conflicts, k) == Some(c)
    requires Taken(rows, AckOf(p).conflicts) == AckOf(p).conflicts
    ensures IsLastRename(p, j, k, c)
    ensures var after := ApplyConflicts(rows, Heard(rows, AckOf(p)).conflicts);
      && k in after && after[k].body.TopicBody? && after[k].body.title == c.newTitle
      && ((k in EndOf(p).rows && EndOf(p).rows[k].body.TopicBody? && EndOf(p).rows[k].body.title == after[k].body.title)
          <==> forall i :: j < i < |p.ms| && p.ms[i].key == k && CommitsAt(p, i) ==> LeavesTitle(p.ms[i], c, p.envs[i].now, p.hard))
  {
    assert p.ms[..|p.ms|] == p.ms;
    LastReported(p, |p.ms|, k);
    j := LastOf(Renames(p, |p.ms|, k)).value.0;
    assert RenameAt(p, j, k) == Some(c);
    forall i | j < i < |p.ms| ensures !RenamesAt(p, i, k) {
      assert RenameAt(p, i, k).None?;
    }
    ConflictsRename(rows, AckOf(p).conflicts, k);
    RenameStandsIff(p, j, k, c);
  }
}
