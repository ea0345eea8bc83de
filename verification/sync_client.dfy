// The sync client as an object over its stores: outbox drain and pull loop, proved against the
// functions on values.

module SyncClient {
  import opened SyncTypes
  import opened LastWriteWins
  import opened ServerApply
  import opened Validation
  import opened Devices
  import opened PushBatch
  import opened Replay
  import opened Paging
  import opened Outbox
  import opened ClientPull
  import opened SyncSystem
  import opened Drain
  import opened PullDelta
  import opened FailedList
  import opened SyncServer

  /** The outbox entries of a rejected batch that are recorded as failed. */
  function GivenUp(items: seq<Item>, rejected: seq<Rejection>): seq<FailedOp> {
    if rejected == [] then []
    else
      var n := |rejected| - 1;
      var item := FindByOp(items, rejected[n].opId);
      GivenUp(items, rejected[..n])
      + (if item.Some? && GivesUp(item.value, rejected[n])
         then [FailedOp(rejected[n].opId, item.value.key, CodeOf(rejected[n].failure))] else [])
  }

  /** The entries name exactly the operations given up, each under its record and the reason: an operation of the
      batch that was refused for good, or refused with its last attempt. */
  lemma {:induction false} GivenUpIs(items: seq<Item>, rejected: seq<Rejection>, e: FailedOp)
    requires DistinctItems(items)
    ensures e in GivenUp(items, rejected)
      <==> exists r, item ::
             r in rejected && item in items && item.opId == r.opId && e == FailedOp(item.opId, item.key, CodeOf(r.failure))
             && (!r.failure.Retryable() || item.attempts + 1 >= MAX_ATTEMPTS)
  {
    if rejected != [] {
      var n := |rejected| - 1;
      var init, last := rejected[..n], rejected[n];
      assert rejected == init + [last];
      GivenUpIs(items, init, e);
      FindByOpFinds(items, last.opId);
      assert forall r :: r in rejected <==> r in init || r == last;
    }
  }

  /** No two failures have the same code unless they are of one kind, and one kind only is worth a retry or not. */
  lemma CodesTell(f: Failure, g: Failure)
    requires CodeOf(f) == CodeOf(g)
    ensures f == g || (f.Malformed? && g.Malformed?) || (f.MediaRefused? && g.MediaRefused?)
  {
  }

  function CodeOf(failure: Failure): string {
    match failure
    case Forbidden => "FORBIDDEN"
    case Malformed(_) => "VALIDATION_ERROR"
    case TopicNotSynced => "TOPIC_NOT_SYNCED"
    case ApplyFailed => "APPLY_FAILED"
    case MediaRefused(_) => "MEDIA"
  }

  /** The entry of a pulled record the client cannot read: its op id is stable per record. */
  function PoisonEntry(k: Key): FailedOp {
    FailedOp("pull:" + (if k.table.Topics? then "topics" else "cards") + ":" + k.id, k, "POISON_RECORD")
  }

  /** An unreadable record has an entry of its own, which a later delivery replaces. */
  lemma PoisonIsPerRecord(j: Key, k: Key)
    ensures PoisonEntry(j).opId == PoisonEntry(k).opId <==> j == k
    ensures PoisonEntry(k).key == k
  {
    var topics, cards := "pull:topics:", "pull:cards:";
    assert PoisonEntry(j).opId[5] == if j.table.Topics? then 't' else 'c';
    assert PoisonEntry(k).opId[5] == if k.table.Topics? then 't' else 'c';
    var start := if k.table.Topics? then topics else cards;
    if j.table == k.table {
      assert PoisonEntry(j).opId == start + j.id && PoisonEntry(k).opId == start + k.id;
      assert (start + j.id)[|start|..] == j.id && (start + k.id)[|start|..] == k.id;
    }
  }

  function PoisonEntries(ks: seq<Key>): seq<FailedOp> {
    seq(|ks|, i requires 0 <= i < |ks| => PoisonEntry(ks[i]))
  }

  /** How a drain ends: with nothing due, and the newest time the server accepted; or with an error. */
  datatype Drained = AllWaiting(now: Time, newest: Time) | Interrupted

  /** What one round of the drain meets: the clocks, the server's surroundings, and whether the request is
      lost, refused for the rate limit, or its answer lost. */
  datatype Round = Round(now: Time, serverNow: Time, fault: nat -> Fault, sent: bool, limited: bool, answered: bool)

  /** How one batch fares: lost, limited, answered, or answered with a rename the local title index refuses. */
  datatype Sent = Lost | Limited | Acked(newest: Time) | Broken(newest: Time)

  /** One answered request: the batch, the server as the request met it, and the answer. */
  datatype Exchange = Exchange(batch: Batch, met: Server, now: Time, envs: seq<Env>, ack: Ack)

  /** The devices once the request's own device has reported in. */
  function Reported(s: Server, user: Id, device: Id, now: Time): Server {
    var r := ReportDevice(s.devices, user, device, None, now);
    if r.Registered? then s.(devices := r.devices) else s
  }

  /** Deletes are hard when no other device of the user is active. */
  predicate IsHard(s: Server, user: Id, device: Id, now: Time) {
    Active(s.devices, user, now) - {device} == {}
  }

  /** That is: every other device is someone else's, revoked, or was last seen a window ago or earlier. */
  lemma HardIff(s: Server, user: Id, device: Id, now: Time)
    ensures IsHard(s, user, device, now)
      <==> forall d :: d in s.devices && d != device ==>
             s.devices[d].owner != user || s.devices[d].revokedAt.Some? || s.devices[d].lastSeenAt <= now - 30 * 86_400_000
  {
    var others := Active(s.devices, user, now) - {device};
    if others != {} {
      var d :| d in others;
    } else {
      forall d | d in s.devices && d != device ensures d !in others {
      }
    }
  }

  /** A push shows the device as seen and confirms no cursor. */
  lemma PushConfirmsNothing(s: Server, user: Id, device: Id, now: Time)
    requires ReportDevice(s.devices, user, device, None, now).Registered?
    ensures var s1 := Reported(s, user, device, now);
      && s1 == s.(devices := s1.devices) && device in s1.devices && s1.devices[device].lastSeenAt == now
      && s1.devices[device].lastPulledSeq == (if device in s.devices then s.devices[device].lastPulledSeq else 0)
      && forall d :: d in s1.devices && d != device ==> d in s.devices && s1.devices[d] == s.devices[d]
  {
    ReportDoes(s.devices, user, device, None, now);
  }

  /** What the server makes of the request. */
  ghost function Answer(user: Id, device: Id, check: Check, x: Exchange): (Server, Ack)
    requires |Admitted(x.batch.mutations, x.now, check)| <= |x.envs|
  {
    var s := Reported(x.met, user, device, x.now);
    ApplyPush(s, user, device, x.batch.mutations, x.now, IsHard(s, user, device, x.now), check, x.envs)
  }

  /** The exchanges took place, one after another, and led the server from `s0` to `s1`. */
  ghost predicate Led(user: Id, device: Id, check: Check, s0: Server, log: seq<Exchange>, s1: Server) {
    if log == [] then s1 == s0
    else
      var x := log[|log| - 1];
      && Led(user, device, check, s0, log[..|log| - 1], x.met)
      && |Admitted(x.batch.mutations, x.now, check)| <= |x.envs|
      && (s1, x.ack) == Answer(user, device, check, x)
  }

  /** The newest time among the accepted operations; zero if there are none. */
  function NewestIn(ms: seq<Mutation>, accepted: seq<Id>): Time {
    if ms == [] then 0
    else
      var m := ms[|ms| - 1];
      Max(NewestIn(ms[..|ms| - 1], accepted), if m.opId in accepted then m.updatedAt else 0)
  }

  /** It is the time of an accepted operation, or zero, and no accepted operation is newer. */
  lemma {:induction false} NewestIsLatest(ms: seq<Mutation>, accepted: seq<Id>)
    ensures var newest := NewestIn(ms, accepted);
      && newest >= 0 && (forall m :: m in ms && m.opId in accepted ==> m.updatedAt <= newest)
      && (newest == 0 || exists m :: m in ms && m.opId in accepted && m.updatedAt == newest)
  {
    if ms != [] {
      var n := |ms| - 1;
      NewestIsLatest(ms[..n], accepted);
      assert ms == ms[..n] + [ms[n]];
      assert forall m :: m in ms <==> m in ms[..n] || m == ms[n];
    }
  }

  function NewestOf(log: seq<Exchange>): Time {
    if log == [] then 0
    else Max(NewestOf(log[..|log| - 1]), NewestIn(log[|log| - 1].batch.mutations, log[|log| - 1].ack.accepted))
  }

  /** The local rows and the failed list after the answers of these exchanges, each as far as it took effect. */
  function RowsAfter(rows: map<Key, Local>, log: seq<Exchange>): map<Key, Local> {
    if log == [] then rows
    else
      var before := RowsAfter(rows, log[..|log| - 1]);
      ApplyConflicts(before, Heard(before, log[|log| - 1].ack).conflicts)
  }

  function FailedAfter(failed: seq<FailedOp>, rows: map<Key, Local>, log: seq<Exchange>): seq<FailedOp> {
    if log == [] then failed
    else
      var x, before := log[|log| - 1], RowsAfter(rows, log[..|log| - 1]);
      AddFailed(FailedAfter(failed, rows, log[..|log| - 1]), GivenUp(x.batch.items, Heard(before, x.ack).rejected))
  }

  /** The request or its answer did not get through, or the server refuses the device. */
  predicate IsLost(round: Round, s: Server, user: Id, device: Id) {
    !round.sent || !round.answered || ReportDevice(s.devices, user, device, None, round.serverNow).Denied?
  }

  /** The last answer of the log reports a rename the local title index refuses. */
  ghost predicate EndsBroken(rows: map<Key, Local>, log: seq<Exchange>) {
    log != []
    && var n := |log| - 1;
       Taken(RowsAfter(rows, log[..n]), log[n].ack.conflicts) != log[n].ack.conflicts
  }

  ghost predicate DistinctOps(q: Queue) {
    forall j, k :: j in q && k in q && q[j].opId == q[k].opId ==> j == k
  }

  /** The rows the server holds above a cursor, as they would be delivered. */
  ghost predicate IsAbove(server: Server, user: Id, since: nat, upTo: nat, r: PageRow) {
    r.key in server.rows && server.rows[r.key] == r.row && r.row.owner == user && since < r.row.serverSeq <= upTo
  }

  /** A card whose topic was a tombstone the server may purge once `upTo` is confirmed: the foreign key
      then takes the card along. */
  predicate MayFall(server: Server, user: Id, upTo: nat, row: Row) {
    row.body.CardBody?
    && var topic := Key(Topics, row.body.topicId);
       topic in server.rows && server.rows[topic].owner == user && !Live(server.rows[topic]) && server.rows[topic].serverSeq <= upTo
  }

  /** From `s0` to `s` only purges confirmed up to `upTo` happened: rows stay as they are or go, and what
      goes is a tombstone of the user's up to there, or a card that falls with one. */
  ghost predicate PurgedTo(s0: Server, s: Server, user: Id, upTo: nat) {
    && s.seqs == s0.seqs && s.ops == s0.ops
    && (forall k :: k in s.rows ==> k in s0.rows && s.rows[k] == s0.rows[k])
    && (forall k :: k in s0.rows && k !in s.rows ==>
          (s0.rows[k].owner == user && !Live(s0.rows[k]) && s0.rows[k].serverSeq <= upTo) || MayFall(s0, user, upTo, s0.rows[k]))
  }

  /** What a pull from `from` on has received by `upTo`, the server having gone from `s0` to `s` meanwhile:
      rows of `s0` in that range, each once, among them all that `s` still has; of the others only cards
      that fell with their topic are missing. */
  ghost predicate Delivered(s0: Server, s: Server, user: Id, from: nat, upTo: nat, received: seq<PageRow>) {
    && (forall r :: r in received ==> IsAbove(s0, user, from, upTo, r))
    && (forall i, j :: 0 <= i < j < |received| ==> received[i].key != received[j].key)
    && (forall r :: IsAbove(s, user, from, upTo, r) ==> r in received)
    && (forall r :: IsAbove(s0, user, from, upTo, r) && r !in received ==> r.key !in s.rows && MayFall(s0, user, upTo, r.row))
  }

  /** A record of this key was received that the client cannot read. */
  ghost predicate Unreadable(received: seq<PageRow>, readable: PageRow -> bool, k: Key) {
    exists r :: r in received && r.key == k && Live(r.row) && !readable(r)
  }

  /** Some exchange carried this very operation, and its answer settles it. */
  ghost predicate SettledIn(log: seq<Exchange>, item: Item) {
    exists x, i :: x in log && i in x.batch.items && i.opId == item.opId && i.key == item.key && Settles(x.batch.items, x.ack, i)
  }

  /** From one outbox to a later one: items keep their operation, and leave only because there is no row to
      send or because an answer settled them. */
  ghost predicate DrainedTo(q0: Queue, rows: map<Key, Local>, q: Queue, log: seq<Exchange>) {
    && (forall k :: k in q ==> k in q0 && q[k].(attempts := 0, nextRetryAt := 0) == q0[k].(attempts := 0, nextRetryAt := 0))
    && (forall k :: k in q0 && k !in q ==> (q0[k].operation.Upsert? && k !in rows) || SettledIn(log, q0[k]))
  }

  /** Rows of the server above a cursor, each record once. */
  ghost predicate FromServer(s0: Server, user: Id, from: nat, received: seq<PageRow>) {
    && (forall r :: r in received ==> r.key in s0.rows && s0.rows[r.key] == r.row && r.row.owner == user && from < r.row.serverSeq)
    && (forall i, j :: 0 <= i < j < |received| ==> received[i].key != received[j].key)
  }

  /** What holds of a pull however far it came: purges apart the server is as at the start, what was received
      comes from there and is in effect, every other local row is as it was or fell with its topic, and
      everything the server still has up to the cursor was received. */
  ghost predicate PullEnd(s0: Server, s: Server, user: Id, from: nat, cursor: nat, start: map<Key, Local>, rows: map<Key, Local>,
                          readable: PageRow -> bool, received: seq<PageRow>, poison: set<Key>) {
    && PurgedTo(s0, s, user, cursor) && FromServer(s0, user, from, received)
    && Progressing(start, received, Applying(rows, map[], poison))
    && (forall k :: k in poison ==> Unreadable(received, readable, k))
    && (forall r :: IsAbove(s, user, from, cursor, r) ==> r in received)
    && (cursor == from || Reached(s0, user, cursor))
  }

  /** The user has no row above the cursor. */
  ghost predicate NothingAbove(s: Server, user: Id, cursor: nat) {
    forall k :: k in s.rows && s.rows[k].owner == user ==> s.rows[k].serverSeq <= cursor
  }

  /** Between two pages. */
  ghost predicate PullState(s0: Server, s: Server, user: Id, from: nat, cursor: nat, start: map<Key, Local>, rows: map<Key, Local>,
                            readable: PageRow -> bool, received: seq<PageRow>, poison: set<Key>) {
    && from <= cursor && BodiesFit(s0.rows) && SeqsSound(s0, user)
    && PullEnd(s0, s, user, from, cursor, start, rows, readable, received, poison)
    && Delivered(s0, s, user, from, cursor, received)
  }

  class SyncStore {
    var rows: map<Key, Local>
    var queue: Queue
    var inFlight: set<Id>
    var cursor: nat
    var failed: seq<FailedOp>

    /** Items are filed under their record and have attempts left; op ids are unique; the title index holds. */
    ghost predicate Valid()
      reads this
    {
      Alive(queue) && DistinctOps(queue) && LocalFit(rows) && TitlesDiffer(rows)
    }

    constructor ()
      ensures Valid() && rows == map[] && queue == map[] && inFlight == {} && cursor == 0 && failed == []
    {
      rows, queue, inFlight, cursor, failed := map[], map[], {}, 0, [];
    }

    // ----- outbox -----

    /** Queues an operation on a record under a fresh op id, coalescing it with what is queued. */
    method CoalesceAndPut(key: Key, operation: Operation, opId: Id, now: Time)
      requires Valid() && forall k :: k in queue ==> queue[k].opId != opId
      modifies `queue
      ensures Valid() && queue == Enqueue(old(queue), inFlight, key, operation, opId, now)
      ensures key in queue <==> !(operation.Delete? && old(IsUnsent(queue, inFlight, key, Upsert)))
      ensures key in queue ==> IsFresh(queue[key], key, operation, opId)
    {
      var flying := key in queue && queue[key].opId in inFlight;
      if key in queue && queue[key].operation.Upsert? && operation.Delete? && !flying {
        queue := queue - {key};
        return;
      }
      var createdAt := now;
      if key in queue && queue[key].operation == operation && !flying {
        createdAt := queue[key].createdAt;
      }
      queue := queue[key := Item(key, opId, operation, createdAt, 0, 0)];
    }

    /** Every queued item once, oldest first. */
    method GetQueue() returns (items: seq<Item>)
      ensures exists order :: IsQueueOrder(queue, order) && items == ItemsOf(queue, order)
    {
      items := [];
      ghost var order := [];
      var rest := queue.Keys;
      while rest != {}
        invariant OldestTaken(queue, order, rest) && items == ItemsOf(queue, order)
        decreases |rest|
      {
        OldestExists(queue, rest);
        var k :| k in rest && forall j :: j in rest ==> queue[k].createdAt <= queue[j].createdAt;
        TakeOldest(queue, order, rest, k);
        items := items + [queue[k]];
        order := order + [k];
        rest := rest - {k};
      }
    }

    /** The build loop; an upsert whose row is gone leaves the queue on the way. */
    method BuildMutations(items: seq<Item>, now: Time, size: Mutation -> nat) returns (b: Batch)
      modifies `queue
      ensures b == Build(items, rows, now, size)
      ensures queue == old(queue) - b.dropped
    {
      b := EMPTY_BATCH;
      for i := 0 to |items|
        invariant BuildFrom(items[i..], rows, now, size, b) == Build(items, rows, now, size)
        invariant queue == old(queue) - b.dropped
      {
        var item := items[i];
        assert items[i..][0] == item && items[i..][1..] == items[i + 1..];
        if item.nextRetryAt > now {
          continue;
        }
        if |b.mutations| >= MAX_PUSH_BATCH {
          return;
        }
        var m := MutationFor(item, rows);
        if m.None? {
          queue := queue - {item.key};
          b := b.(dropped := b.dropped + {item.key});
          continue;
        }
        if |b.mutations| > 0 && b.bytes + size(m.value) + 1 > MAX_PUSH_BYTES {
          return;
        }
        b := Batch(b.mutations + [m.value], b.items + [item], b.bytes + size(m.value) + 1, b.dropped);
      }
    }

    method RemoveQueueItemIfOp(item: Item)
      modifies `queue
      ensures queue == RemoveIfOp(old(queue), item)
    {
      if item.key in queue && queue[item.key].opId == item.opId {
        queue := queue - {item.key};
      }
    }

    method BumpQueueAttempts(item: Item, wake: Id -> Time)
      modifies `queue
      ensures queue == BumpIfOp(old(queue), item, wake)
    {
      var next := item.(attempts := item.attempts + 1, nextRetryAt := wake(item.opId));
      if item.key in queue && queue[item.key].opId == item.opId {
        queue := queue[item.key := next];
      }
    }

    /** A rename the title index refuses fails. */
    method ApplyTopicConflict(c: Conflict) returns (ok: bool)
      modifies `rows
      ensures ok == LetsIn(old(rows), c) && rows == if ok then ApplyConflicts(old(rows), [c]) else old(rows)
    {
      OneRename(rows, c);
      var k := Key(Topics, c.topicId);
      if k !in rows || !rows[k].body.TopicBody? {
        return true;
      }
      if TitleTaken(rows, c.newTitle, k) {
        return false;
      }
      rows := rows[k := Local(rows[k].body.(title := c.newTitle), c.updatedAt)];
      return true;
    }

    /** Accepted operations leave the queue while it still holds them. */
    method RemoveAcceptedItems(accepted: seq<Id>, items: seq<Item>)
      modifies `queue
      ensures queue == RemoveAccepted(old(queue), items, accepted)
    {
      for i := 0 to |accepted|
        invariant queue == RemoveAccepted(old(queue), items, accepted[..i])
      {
        assert accepted[..i + 1][..i] == accepted[..i];
        var item := FindByOp(items, accepted[i]);
        if item.Some? { RemoveQueueItemIfOp(item.value); }
      }
      assert accepted[..|accepted|] == accepted;
    }

    /** Renames are taken over, and settle the operation of their record; the first that fails ends it. */
    method TakeConflicts(conflicts: seq<Conflict>, items: seq<Item>) returns (ok: bool)
      modifies `rows, `queue
      ensures var taken := Taken(old(rows), conflicts);
        && ok == (taken == conflicts)
        && queue == RemoveConflicts(old(queue), items, taken) && rows == ApplyConflicts(old(rows), taken)
    {
      for i := 0 to |conflicts|
        invariant Taken(old(rows), conflicts[..i]) == conflicts[..i]
        invariant queue == RemoveConflicts(old(queue), items, conflicts[..i])
        invariant rows == ApplyConflicts(old(rows), conflicts[..i])
      {
        ok := ApplyTopicConflict(conflicts[i]);
        if !ok {
          TakenEnds(old(rows), conflicts, i);
          return false;
        }
        TakesOneMore(old(rows), old(queue), items, conflicts, i);
        var item := FindByRecord(items, conflicts[i].topicId);
        if item.Some? { RemoveQueueItemIfOp(item.value); }
      }
      assert conflicts[..|conflicts|] == conflicts;
      ok := true;
    }

    /** Rejected operations are given up and reported, or tried once more. */
    method HandleRejections(rejected: seq<Rejection>, items: seq<Item>, wake: Id -> Time) returns (entries: seq<FailedOp>)
      modifies `queue
      ensures queue == HandleRejected(old(queue), items, rejected, wake) && entries == GivenUp(items, rejected)
    {
      entries := [];
      for i := 0 to |rejected|
        invariant queue == HandleRejected(old(queue), items, rejected[..i], wake)
        invariant entries == GivenUp(items, rejected[..i])
      {
        assert rejected[..i + 1][..i] == rejected[..i];
        var r := rejected[i];
        var item := FindByOp(items, r.opId);
        if item.None? { continue; }
        if !r.failure.Retryable() || item.value.attempts + 1 >= MAX_ATTEMPTS {
          entries := entries + [FailedOp(r.opId, item.value.key, CodeOf(r.failure))];
          RemoveQueueItemIfOp(item.value);
        } else {
          BumpQueueAttempts(item.value, wake);
        }
      }
      assert rejected[..|rejected|] == rejected;
    }

    /** Takes an answer: accepted operations leave, renames are taken over, rejections handled. A rename that
        fails leaves the rest undone, and the error is the caller's. */
    method ApplyPushAck(ack: Ack, items: seq<Item>, wake: Id -> Time) returns (ok: bool)
      modifies `rows, `queue, `failed
      ensures var heard := Heard(old(rows), ack);
        && ok == (Taken(old(rows), ack.conflicts) == ack.conflicts)
        && queue == ApplyAck(old(queue), items, heard, wake)
        && rows == ApplyConflicts(old(rows), heard.conflicts)
        && failed == AddFailed(old(failed), GivenUp(items, heard.rejected))
    {
      RemoveAcceptedItems(ack.accepted, items);
      ok := TakeConflicts(ack.conflicts, items);
      if !ok {
        return;
      }
      var entries := HandleRejections(ack.rejected, items, wake);
      failed := AddFailed(failed, entries);
    }

    /** The newest time among a batch's accepted operations. */
    method MaxAccepted(mutations: seq<Mutation>, accepted: seq<Id>) returns (newest: Time)
      ensures newest == NewestIn(mutations, accepted)
    {
      newest := 0;
      for i := 0 to |mutations|
        invariant newest == NewestIn(mutations[..i], accepted)
      {
        assert mutations[..i + 1][..i] == mutations[..i];
        newest := Max(newest, if mutations[i].opId in accepted then mutations[i].updatedAt else 0);
      }
      assert mutations[..|mutations|] == mutations;
    }

    /** Sends one batch and applies its ack, unless the request or its answer is lost or refused. */
    method PushBatchOnce(server: SyncService, user: Id, device: Id, check: Check, b: Batch,
                         wake: Id -> Time, round: Round) returns (res: Sent, ghost x: Exchange)
      requires Valid() && server.Valid() && TakenFrom(queue, b.items) && Carries(b, rows) && b.mutations != []
      modifies `rows, `queue, `failed, server
      ensures Valid() && server.Valid()
      ensures res.Lost? || res.Limited? ==> queue == old(queue) && rows == old(rows) && failed == old(failed)
      ensures res.Lost? ==> IsLost(round, server.View(), user, device)
      ensures res.Limited? ==> round.limited && server.View() == old(server.View())
      ensures res.Broken? ==> Taken(old(rows), x.ack.conflicts) != x.ack.conflicts
      ensures res.Acked? || res.Broken? ==>
        && x.batch == b && x.met == old(server.View())
        && |Admitted(b.mutations, x.now, check)| <= |x.envs|
        && (server.View(), x.ack) == Answer(user, device, check, x)
        && HeardFrom(x, old(queue), old(rows), old(failed), wake, queue, rows, failed)
        && res.newest == NewestIn(b.mutations, x.ack.accepted)
        && 0 <= AttemptsLeft(queue) <= old(AttemptsLeft(queue))
      ensures res.Acked? ==> Heard(old(rows), x.ack) == x.ack && AttemptsLeft(queue) < old(AttemptsLeft(queue))
    {
      var now := round.serverNow;
      var envs := seq(|Admitted(b.mutations, now, check)|, i requires 0 <= i => Env(now, round.fault(i)));
      x := Exchange(b, server.View(), now, envs, EMPTY_ACK);
      if !round.sent {
        return Lost, x;
      }
      if round.limited {
        return Limited, x;
      }
      var denial := server.Report(user, device, None, now);
      if denial.Some? {
        return Lost, x;
      }
      ghost var before := server.View();
      ghost var hard := IsHard(before, user, device, now);
      var ack := server.ApplyPushBatch(user, device, b.mutations, now, check, envs);
      if !round.answered {
        return Lost, x;
      }
      x := x.(ack := ack);
      AckNamesBatch(before, user, device, b.mutations, now, hard, check, envs);
      AnsweredBatchDrains(queue, rows, b, ack, wake);
      HeardKeepsValid(queue, rows, b, ack, wake);
      var newest := MaxAccepted(b.mutations, ack.accepted);
      var ok := ApplyPushAck(ack, b.items, wake);
      return if ok then Acked(newest) else Broken(newest), x;
    }

    /** The next batch of due operations; upserts without a row leave the queue. */
    method NextBatch(now: Time, size: Mutation -> nat) returns (b: Batch)
      requires Valid()
      modifies `queue
      ensures Valid() && TakenFrom(queue, b.items) && Carries(b, rows)
      ensures 0 <= AttemptsLeft(queue) <= old(AttemptsLeft(queue))
      ensures queue == old(queue) - b.dropped
      ensures forall k :: k in b.dropped && k in old(queue) ==> old(queue)[k].operation.Upsert? && k !in rows
      ensures b.mutations == [] ==> forall k :: k in queue ==> queue[k].nextRetryAt > now
      ensures exists order :: IsQueueOrder(old(queue), order) && b == Build(ItemsOf(old(queue), order), rows, now, size)
    {
      var items := GetQueue();
      ghost var order :| IsQueueOrder(queue, order) && items == ItemsOf(queue, order);
      ghost var before := queue;
      OrderTakesAll(queue, order);
      b := BuildMutations(items, now, size);
      BatchIsTaken(before, rows, items, now, size, b);
      DroppedAreRowless(before, rows, items, now, size, b);
      if b.mutations == [] {
        NothingDue(before, rows, items, now, size, b);
      }
    }

    /** What the drain has done so far, from outbox `q0`, rows `rows0`, failed list `failed0` and server
        `s0` on. */
    ghost predicate Draining(server: SyncService, user: Id, device: Id, check: Check, q0: Queue, rows0: map<Key, Local>,
                             failed0: seq<FailedOp>, s0: Server, log: seq<Exchange>)
      reads `queue, `rows, `failed, server
    {
      && DrainedTo(q0, rows0, queue, log) && Led(user, device, check, s0, log, server.View())
      && rows == RowsAfter(rows0, log) && failed == FailedAfter(failed0, rows0, log)
    }

    /** Sends one batch and notes the exchange. */
    method PushNoted(server: SyncService, user: Id, device: Id, check: Check, b: Batch, wake: Id -> Time, round: Round,
                     ghost q0: Queue, ghost rows0: map<Key, Local>, ghost failed0: seq<FailedOp>, ghost s0: Server,
                     ghost log0: seq<Exchange>)
      returns (res: Sent, ghost log: seq<Exchange>)
      requires Valid() && server.Valid() && TakenFrom(queue, b.items) && Carries(b, rows) && b.mutations != []
      requires Draining(server, user, device, check, q0, rows0, failed0, s0, log0)
      modifies `rows, `queue, `failed, server
      ensures Valid() && server.Valid()
      ensures DrainedTo(q0, rows0, queue, log) && rows == RowsAfter(rows0, log) && failed == FailedAfter(failed0, rows0, log)
      ensures !res.Lost? ==> Led(user, device, check, s0, log, server.View())
      ensures res.Limited? ==> round.limited
      ensures res.Lost? ==> IsLost(round, server.View(), user, device)
      ensures res.Broken? ==> EndsBroken(rows0, log)
      ensures 0 <= AttemptsLeft(queue) <= old(AttemptsLeft(queue))
      ensures res.Acked? ==> AttemptsLeft(queue) < old(AttemptsLeft(queue))
      ensures NewestOf(log) == if res.Acked? || res.Broken? then Max(NewestOf(log0), res.newest) else NewestOf(log0)
    {
      log := log0;
      ghost var left := queue;
      LeftNonNegative(left);
      ghost var x;
      res, x := PushBatchOnce(server, user, device, check, b, wake, round);
      if res.Acked? || res.Broken? {
        log := ExchangeNoted(user, device, check, s0, log0, x, server.View(), q0, rows0, failed0, left, wake, queue, rows, failed);
      }
    }

    /** Sends one batch, marked in flight meanwhile. */
    method SendBatch(server: SyncService, user: Id, device: Id, check: Check, b: Batch, wake: Id -> Time, round: Round,
                     ghost q0: Queue, ghost rows0: map<Key, Local>, ghost failed0: seq<FailedOp>, ghost s0: Server,
                     ghost log0: seq<Exchange>)
      returns (res: Sent, ghost log: seq<Exchange>)
      requires Valid() && server.Valid() && TakenFrom(queue, b.items) && Carries(b, rows) && b.mutations != []
      requires Draining(server, user, device, check, q0, rows0, failed0, s0, log0)
      modifies `rows, `queue, `failed, `inFlight, server
      ensures Valid() && server.Valid() && inFlight <= old(inFlight)
      ensures DrainedTo(q0, rows0, queue, log) && rows == RowsAfter(rows0, log) && failed == FailedAfter(failed0, rows0, log)
      ensures !res.Lost? ==> Led(user, device, check, s0, log, server.View())
      ensures res.Limited? ==> round.limited
      ensures res.Lost? ==> IsLost(round, server.View(), user, device)
      ensures res.Broken? ==> EndsBroken(rows0, log)
      ensures 0 <= AttemptsLeft(queue) <= old(AttemptsLeft(queue))
      ensures res.Acked? ==> AttemptsLeft(queue) < old(AttemptsLeft(queue))
      ensures NewestOf(log) == if res.Acked? || res.Broken? then Max(NewestOf(log0), res.newest) else NewestOf(log0)
    {
      var flying := set item | item in b.items :: item.opId;
      inFlight := inFlight + flying;
      res, log := PushNoted(server, user, device, check, b, wake, round, q0, rows0, failed0, s0, log0);
      inFlight := inFlight - flying;
    }

    /** One turn of the drain: the next batch, if any is due. */
    method DrainOnce(server: SyncService, user: Id, device: Id, check: Check, size: Mutation -> nat, wake: Id -> Time, round: Round,
                     newest: Time, ghost q0: Queue, ghost rows0: map<Key, Local>, ghost failed0: seq<FailedOp>, ghost s0: Server,
                     ghost log0: seq<Exchange>)
      returns (end: Option<Drained>, newest1: Time, ghost log: seq<Exchange>)
      requires Valid() && server.Valid() && Draining(server, user, device, check, q0, rows0, failed0, s0, log0)
      requires newest == NewestOf(log0)
      modifies `rows, `queue, `failed, `inFlight, server
      ensures Valid() && server.Valid() && inFlight <= old(inFlight) && newest1 == NewestOf(log)
      ensures DrainedTo(q0, rows0, queue, log) && rows == RowsAfter(rows0, log) && failed == FailedAfter(failed0, rows0, log)
      ensures end != Some(Interrupted) ==> Led(user, device, check, s0, log, server.View())
      ensures 0 <= AttemptsLeft(queue) <= old(AttemptsLeft(queue))
      ensures end.None? ==> round.limited || AttemptsLeft(queue) < old(AttemptsLeft(queue))
      ensures end == Some(Interrupted) ==> IsLost(round, server.View(), user, device) || EndsBroken(rows0, log)
      ensures end.Some? && end.value.AllWaiting? ==>
        end.value.newest == NewestOf(log) && forall k :: k in queue ==> queue[k].nextRetryAt > end.value.now
    {
      log, newest1 := log0, newest;
      ghost var before := queue;
      var b := NextBatch(round.now, size);
      RowsKeepKeys(rows0, log0);
      DropsJustified(q0, rows0, before, b.dropped, log0);
      if b.mutations == [] {
        return Some(AllWaiting(round.now, newest)), newest1, log;
      }
      var res;
      res, log := SendBatch(server, user, device, check, b, wake, round, q0, rows0, failed0, s0, log0);
      match res {
        case Lost => return Some(Interrupted), newest1, log;
        case Limited => return None, newest1, log;
        case Acked(accepted) =>
          newest1 := Max(newest, accepted);
          return None, newest1, log;
        case Broken(accepted) =>
          newest1 := Max(newest, accepted);
          return Some(Interrupted), newest1, log;
      }
    }

    /** Drains the outbox batch by batch, a batch refused for the rate limit being built and sent again. It
        stops by itself once the server stops limiting: with nothing else touching the outbox, every
        answered batch uses up attempts. It ends normally only when nothing is due. `log` is what was
        exchanged with the server: it led the server where it is, the rows and the failed list are what its
        answers make of them, and whatever has left the outbox had no row to send or was settled by an
        answer to that very operation. */
    method PushQueue(server: SyncService, user: Id, device: Id, check: Check, size: Mutation -> nat,
                     wake: Id -> Time, world: nat -> Round, ghost patience: nat)
      returns (r: Drained, ghost log: seq<Exchange>)
      requires Valid() && server.Valid() && forall i :: i >= patience ==> !world(i).limited
      modifies `rows, `queue, `failed, `inFlight, server
      ensures Valid() && server.Valid() && inFlight <= old(inFlight)
      ensures r.AllWaiting? ==> r.newest == NewestOf(log) && forall k :: k in queue ==> queue[k].nextRetryAt > r.now
      ensures r.AllWaiting? ==> Led(user, device, check, old(server.View()), log, server.View())
      ensures r.Interrupted? ==> (exists i :: IsLost(world(i), server.View(), user, device)) || EndsBroken(old(rows), log)
      ensures DrainedTo(old(queue), old(rows), queue, log)
      ensures rows == RowsAfter(old(rows), log) && failed == FailedAfter(old(failed), old(rows), log)
    {
      var round, newest := 0, 0;
      log := [];
      LeftNonNegative(queue);
      while true
        invariant Valid() && server.Valid() && inFlight <= old(inFlight)
        invariant AttemptsLeft(queue) >= 0 && newest == NewestOf(log)
        invariant Draining(server, user, device, check, old(queue), old(rows), old(failed), old(server.View()), log)
        decreases Max(patience - round, 0), AttemptsLeft(queue)
      {
        var end;
        end, newest, log := DrainOnce(server, user, device, check, size, wake, world(round), newest,
                                      old(queue), old(rows), old(failed), old(server.View()), log);
        if end.Some? {
          return end.value, log;
        }
        round := round + 1;
      }
    }

    // ----- pull -----

    /** Moves the cursor forward, never back. */
    method AdvanceTo(watermark: nat)
      modifies `cursor
      ensures cursor == AdvanceCursor(old(cursor), watermark) && cursor >= old(cursor)
    {
      if watermark > cursor {
        cursor := watermark;
      }
    }

    /** Applies the records of a page one after another on a view taken now, up to one that is refused. */
    method ApplyRecords(records: seq<PageRow>, readable: PageRow -> bool, ghost start: map<Key, Local>,
                        ghost received: seq<PageRow>, poisoned: set<Key>)
      returns (ok: bool, poison: set<Key>, applied: nat, found: seq<Key>)
      requires Progressing(start, received, Applying(rows, map[], poisoned)) && TitlesDiffer(rows)
      requires forall r :: r in records ==> FitsTable(r) && forall q :: q in received ==> q.key != r.key
      requires forall i, j :: 0 <= i < j < |records| ==> records[i].key != records[j].key
      modifies `rows
      ensures applied <= |records| && TitlesDiffer(rows)
      ensures if ok then applied == |records| else applied < |records| && IsRefused(rows, records[applied], readable)
      ensures WrittenBy(old(rows), records, readable, applied, rows)
      ensures Progressing(start, received + records[..applied], Applying(rows, map[], poison))
      ensures poison == poisoned + (set k | k in found)
      ensures forall k :: k in found ==> Unreadable(records[..applied], readable, k)
    {
      var a := Applying(rows, Snapshot(rows, records), poisoned);
      ghost var first := a;
      found, applied, ok := [], 0, true;
      FirstPageState(start, received, records, readable, a);
      while applied < |records|
        invariant a.rows == rows && ok && PageState(first, start, received, records, readable, applied, a, found)
      {
        var r := records[applied];
        var next := ApplyKnown(a, r, readable(r));
        RefusedIff(a, r, readable(r));
        if next.None? {
          ok := false;
          break;
        }
        NextPageState(first, start, received, records, readable, applied, a, found);
        if r.key in next.value.poisoned && r.key !in a.poisoned { found := found + [r.key]; }
        a := next.value;
        rows := a.rows;
        applied := applied + 1;
      }
      poison := a.poisoned;
      PageStateMeans(first, start, received, records, readable, applied, a, found);
    }

    /** Applies one page on top of what the pull received so far; false when a write was refused. What could
        not be read is booked either way; the cursor moves only over a page applied to its end. */
    method ApplyPullDelta(page: Page, readable: PageRow -> bool, ghost start: map<Key, Local>,
                          ghost received: seq<PageRow>, poisoned: set<Key>)
      returns (ok: bool, poison: set<Key>, applied: nat, found: seq<Key>)
      requires Progressing(start, received, Applying(rows, map[], poisoned)) && TitlesDiffer(rows)
      requires forall r :: r in page.records ==> FitsTable(r) && forall q :: q in received ==> q.key != r.key
      requires forall i, j :: 0 <= i < j < |page.records| ==> page.records[i].key != page.records[j].key
      modifies `rows, `cursor, `failed
      ensures applied <= |page.records| && TitlesDiffer(rows)
      ensures if ok then applied == |page.records| else applied < |page.records| && IsRefused(rows, page.records[applied], readable)
      ensures WrittenBy(old(rows), page.records, readable, applied, rows)
      ensures Progressing(start, received + page.records[..applied], Applying(rows, map[], poison))
      ensures cursor == if ok then AdvanceCursor(old(cursor), page.watermark) else old(cursor)
      ensures poison == poisoned + (set k | k in found) && failed == AddFailed(old(failed), PoisonEntries(found))
      ensures forall k :: k in found ==> Unreadable(page.records[..applied], readable, k)
    {
      ok, poison, applied, found := ApplyRecords(page.records, readable, start, received, poisoned);
      failed := AddFailed(failed, PoisonEntries(found));
      if ok {
        AdvanceTo(page.watermark);
      }
    }

    /** The server reads the rows after a cursor. */
    method ReadPage(server: SyncService, user: Id, since: nat, limit: nat) returns (page: Page)
      requires SeqsSound(server.View(), user) && limit >= 1
      ensures NextRows(server.View(), user, since, page)
    {
      page := server.Pull(user, since, limit);
      PageIsNext(server.View(), user, since, limit);
    }

    /** The server takes the sent cursor as the device's confirmed one, then purges what every active device
        has confirmed. */
    method FinishSyncCycle(server: SyncService, user: Id, device: Id, since: nat, now: Time) returns (denial: Option<Denial>)
      requires server.Valid()
      modifies server
      ensures server.Valid() && PurgedTo(old(server.View()), server.View(), user, since)
      ensures denial.Some? ==> server.View() == old(server.View()) && IsDenied(server.View(), user, device, since, now)
      ensures denial.None? ==> IsTidied(server.View(), user, device, since, now)
    {
      ghost var before := server.View();
      denial := server.Report(user, device, Some(since), now);
      if denial.None? {
        ghost var reported := server.View();
        server.PurgeSyncedTombstones(user, now);
        PurgesConfirmed(before, reported, server.View(), user, device, since, now);
        PurgeTidies(reported, user, device, since, now);
      }
    }

    /** One pull request: read, report, purge. A refused report fails the request. */
    method FetchPage(server: SyncService, user: Id, device: Id, since: nat, limit: nat, now: Time) returns (page: Option<Page>)
      requires server.Valid() && SeqsSound(server.View(), user) && limit >= 1
      modifies server
      ensures server.Valid() && PurgedTo(old(server.View()), server.View(), user, since)
      ensures page.Some? ==> NextRows(old(server.View()), user, since, page.value)
      ensures page.None? ==> IsDenied(server.View(), user, device, since, now)
      ensures page.Some? ==> IsTidied(server.View(), user, device, since, now)
    {
      var answer := ReadPage(server, user, since, limit);
      var denial := FinishSyncCycle(server, user, device, since, now);
      return if denial.None? then Some(answer) else None;
    }

    /** A fetched page, applied as far as it goes. */
    method TakePage(page: Page, readable: PageRow -> bool, user: Id, since: nat, ghost start: map<Key, Local>, ghost s0: Server,
                    ghost met: Server, ghost s: Server, ghost from: nat, ghost received: seq<PageRow>, poisoned: set<Key>)
      returns (ok: bool, poison: set<Key>, ghost received1: seq<PageRow>)
      requires since == cursor && PullState(s0, met, user, from, since, start, rows, readable, received, poisoned) && TitlesDiffer(rows)
      requires NextRows(met, user, since, page) && PurgedTo(met, s, user, since)
      modifies `rows, `cursor, `failed
      ensures cursor >= since && TitlesDiffer(rows)
      ensures PullEnd(s0, s, user, from, cursor, start, rows, readable, received1, poison)
      ensures ok ==> PullState(s0, s, user, from, cursor, start, rows, readable, received1, poison)
      ensures !ok ==> IsStuck(s0, user, cursor, rows, readable)
      ensures ok && !page.more ==> NothingAbove(s, user, cursor)
      ensures ok && page.more ==> |Above(s, user, cursor)| < |Above(met, user, since)|
    {
      AfterPage(s0, met, s, user, from, since, page, received);
      var applied, found;
      ok, poison, applied, found := ApplyPullDelta(page, readable, start, received, poisoned);
      received1 := received + page.records[..applied];
      if ok {
        PageTaken(s0, met, s, user, from, since, start, rows, readable, received, page, poisoned, poison, found);
      } else {
        PageCutShort(s0, met, s, user, from, since, start, rows, readable, received, page, applied, poisoned, poison, found);
        StuckAt(s0, met, user, since, page, applied, rows, readable);
      }
    }

    /** One turn of the pull loop: the next page, applied as far as it goes. */
    method PullOnce(server: SyncService, user: Id, device: Id, since: nat, limit: nat, now: Time, readable: PageRow -> bool,
                    ghost start: map<Key, Local>, ghost s0: Server, ghost from: nat, ghost received: seq<PageRow>, poisoned: set<Key>)
      returns (ok: bool, poison: set<Key>, more: bool, ghost received1: seq<PageRow>)
      requires server.Valid() && limit >= 1 && since == cursor
      requires PullState(s0, server.View(), user, from, since, start, rows, readable, received, poisoned) && TitlesDiffer(rows)
      modifies `rows, `cursor, `failed, server
      ensures server.Valid() && cursor >= since && TitlesDiffer(rows)
      ensures PullEnd(s0, server.View(), user, from, cursor, start, rows, readable, received1, poison)
      ensures ok ==> PullState(s0, server.View(), user, from, cursor, start, rows, readable, received1, poison)
      ensures !ok ==> IsDenied(server.View(), user, device, cursor, now) || IsStuck(s0, user, cursor, rows, readable)
      ensures ok ==> IsTidied(server.View(), user, device, since, now)
      ensures ok && !more ==> NothingAbove(server.View(), user, cursor)
      ensures ok && more ==> |Above(server.View(), user, cursor)| < old(|Above(server.View(), user, since)|)
    {
      ghost var met := server.View();
      FewerSeqsSound(s0, met, user);
      var page := FetchPage(server, user, device, since, limit, now);
      if page.None? {
        PurgesAddUp(s0, met, server.View(), user, since);
        FewerDelivered(s0, met, server.View(), user, from, since, received);
        return false, poisoned, false, received;
      }
      ok, poison, received1 :=
        TakePage(page.value, readable, user, since, start, s0, met, server.View(), from, received, poisoned);
      more := page.value.more;
    }

    /** Pulls page after page. Each request also reports the device and purges, so rows may go meanwhile;
        nothing else touches the server. The loop ends. What is received are rows the server had at the
        start, each once, and they take effect; every row above the old cursor that the server ends with is
        among them, and of the rows it started with only cards that fell with their topic are missing. A
        pull that ends well leaves the cursor at or above every row. */
    method PullChanges(server: SyncService, user: Id, device: Id, limit: nat, now: nat -> Time, readable: PageRow -> bool)
      returns (ok: bool, poison: set<Key>, ghost received: seq<PageRow>)
      requires Valid() && server.Valid() && SeqsSound(server.View(), user) && limit >= 1
      modifies `rows, `cursor, `failed, server
      ensures Valid() && server.Valid() && cursor >= old(cursor)
      ensures PullEnd(old(server.View()), server.View(), user, old(cursor), cursor, old(rows), rows, readable, received, poison)
      ensures ok ==> Delivered(old(server.View()), server.View(), user, old(cursor), cursor, received)
      ensures ok ==> NothingAbove(server.View(), user, cursor)
      ensures !ok ==> IsStuck(old(server.View()), user, cursor, rows, readable)
                      || exists i :: IsDenied(server.View(), user, device, cursor, now(i))
      ensures ok ==> exists i, since: nat :: since >= old(cursor) && IsTidied(server.View(), user, device, since, now(i))
    {
      poison, received := {}, [];
      var since, round, more := cursor, 0, true;
      ghost var s0, start, from := server.View(), rows, cursor;
      PullStarts(s0, user, cursor, rows, readable);
      while more
        invariant server.Valid() && since == cursor >= from && queue == old(queue) && TitlesDiffer(rows)
        invariant PullState(s0, server.View(), user, from, cursor, start, rows, readable, received, poison)
        invariant !more ==> NothingAbove(server.View(), user, cursor)
        invariant !more ==> exists i, at: nat :: at >= from && IsTidied(server.View(), user, device, at, now(i))
        decreases more, |Above(server.View(), user, since)|
      {
        ok, poison, more, received :=
          PullOnce(server, user, device, since, limit, now(round), readable, start, s0, from, received, poison);
        if !ok {
          return;
        }
        assert IsTidied(server.View(), user, device, since, now(round));
        since, round := cursor, round + 1;
      }
      ok := true;
    }
  }

  /** The record is live and readable, and other local topics have both titles it could be stored under. */
  ghost predicate IsRefused(rows: map<Key, Local>, r: PageRow, readable: PageRow -> bool) {
    Live(r.row) && readable(r) && BothTitlesTaken(rows, r)
  }

  /** Such a record lies above the cursor. */
  ghost predicate IsStuck(s: Server, user: Id, cursor: nat, rows: map<Key, Local>, readable: PageRow -> bool) {
    exists k :: k in s.rows && s.rows[k].owner == user && s.rows[k].serverSeq > cursor && IsRefused(rows, PageRow(k, s.rows[k]), readable)
  }

  /** The device has reported this cursor, and nothing is left that a purge would take. */
  ghost predicate IsTidied(s: Server, user: Id, device: Id, since: nat, now: Time) {
    device in s.devices && s.devices[device] == DeviceRow(user, since, now, None) && PurgeKeys(s, user, now) == {}
  }

  lemma PurgeTidies(s: Server, user: Id, device: Id, since: nat, now: Time)
    requires device in s.devices && s.devices[device] == DeviceRow(user, since, now, None)
    ensures IsTidied(Purge(s, user, now), user, device, since, now)
  {
    var s1 := Purge(s, user, now);
    assert Active(s1.devices, user, now) == Active(s.devices, user, now);
    forall k ensures !Purgeable(s1, user, now, k) {
      assert k in PurgeKeys(s, user, now) <==> Purgeable(s, user, now, k);
    }
  }

  /** The server refuses the device's report. */
  predicate IsDenied(s: Server, user: Id, device: Id, since: nat, now: Time) {
    ReportDevice(s.devices, user, device, Some(since), now).Denied?
  }

  lemma StuckAt(s0: Server, met: Server, user: Id, since: nat, page: Page, i: nat, rows: map<Key, Local>, readable: PageRow -> bool)
    requires NextRows(met, user, since, page) && (forall k :: k in met.rows ==> k in s0.rows && met.rows[k] == s0.rows[k])
    requires i < |page.records| && IsRefused(rows, page.records[i], readable)
    ensures IsStuck(s0, user, since, rows, readable)
  {
    var r := page.records[i];
    assert r in page.records && IsAbove(met, user, since, page.watermark, r);
    assert PageRow(r.key, s0.rows[r.key]) == r;
  }

  /** A page applied to its end. */
  lemma PageTaken(s0: Server, met: Server, s: Server, user: Id, from: nat, since: nat, start: map<Key, Local>, rows: map<Key, Local>,
                  readable: PageRow -> bool, received: seq<PageRow>, page: Page, poisoned: set<Key>, poison: set<Key>, found: seq<Key>)
    requires from <= since && BodiesFit(s0.rows) && SeqsSound(s0, user)
    requires PurgedTo(s0, met, user, since) && PurgedTo(met, s, user, since)
    requires Delivered(s0, met, user, from, since, received) && NextRows(met, user, since, page)
    requires forall k :: k in poisoned ==> Unreadable(received, readable, k)
    requires poison == poisoned + (set k | k in found) && forall k :: k in found ==> Unreadable(page.records[..|page.records|], readable, k)
    requires Progressing(start, received + page.records[..|page.records|], Applying(rows, map[], poison))
    requires since == from || Reached(s0, user, since)
    ensures PullState(s0, s, user, from, page.watermark, start, rows, readable, received + page.records[..|page.records|], poison)
  {
    assert page.records[..|page.records|] == page.records;
    AfterPage(s0, met, s, user, from, since, page, received);
    UnreadableGrows(received, page.records, readable);
  }

  /** A page applied up to a record that was refused. */
  lemma PageCutShort(s0: Server, met: Server, s: Server, user: Id, from: nat, since: nat, start: map<Key, Local>, rows: map<Key, Local>,
                     readable: PageRow -> bool, received: seq<PageRow>, page: Page, n: nat, poisoned: set<Key>, poison: set<Key>, found: seq<Key>)
    requires from <= since && n <= |page.records| && BodiesFit(s0.rows)
    requires PurgedTo(s0, met, user, since) && PurgedTo(met, s, user, since)
    requires Delivered(s0, met, user, from, since, received) && NextRows(met, user, since, page)
    requires forall k :: k in poisoned ==> Unreadable(received, readable, k)
    requires poison == poisoned + (set k | k in found) && forall k :: k in found ==> Unreadable(page.records[..n], readable, k)
    requires Progressing(start, received + page.records[..n], Applying(rows, map[], poison))
    requires since == from || Reached(s0, user, since)
    ensures PullEnd(s0, s, user, from, since, start, rows, readable, received + page.records[..n], poison)
  {
    AfterPage(s0, met, s, user, from, since, page, received);
    PartFromServer(s0, user, from, received, page.records, n);
    UnreadableGrows(received, page.records[..n], readable);
  }

  /** The local rows are what the first records of a page make of them, one after the other on a view taken
      at the start. */
  ghost predicate WrittenBy(before: map<Key, Local>, records: seq<PageRow>, readable: PageRow -> bool, n: nat, after: map<Key, Local>) {
    n <= |records|
    && var a := ApplyRecordsTo(Applying(before, Snapshot(before, records), {}), records[..n], readable);
       a.Some? && a.value.rows == after
  }

  /** What was found unreadable before makes no difference to the rows. */
  lemma {:induction false} PoisonIsNoted(a: Applying, b: Applying, records: seq<PageRow>, readable: PageRow -> bool)
    requires b == a.(poisoned := b.poisoned)
    ensures var x, y := ApplyRecordsTo(a, records, readable), ApplyRecordsTo(b, records, readable);
      x.Some? == y.Some? && (x.Some? ==> y.value == x.value.(poisoned := y.value.poisoned))
  {
    if records != [] {
      PoisonIsNoted(a, b, records[..|records| - 1], readable);
    }
  }

  lemma WrittenFrom(first: Applying, records: seq<PageRow>, readable: PageRow -> bool, n: nat)
    requires n <= |records| && first.known == Snapshot(first.rows, records)
    requires ApplyRecordsTo(first, records[..n], readable).Some?
    ensures WrittenBy(first.rows, records, readable, n, ApplyRecordsTo(first, records[..n], readable).value.rows)
  {
    PoisonIsNoted(first, Applying(first.rows, first.known, {}), records[..n], readable);
  }

  /** Within a page: the records before `i` are in effect, and the view of the others' rows holds. */
  ghost predicate InPage(start: map<Key, Local>, received: seq<PageRow>, records: seq<PageRow>, i: nat, a: Applying) {
    && i <= |records| && Progressing(start, received + records[..i], a)
    && forall j :: i <= j < |records| ==> ViewHolds(start, received + records[..i], a, records[j].key)
  }

  lemma NextInPage(start: map<Key, Local>, received: seq<PageRow>, records: seq<PageRow>, i: nat, a: Applying, readable: bool)
    requires i < |records| && InPage(start, received, records, i, a) && ApplyKnown(a, records[i], readable).Some?
    requires forall r :: r in records ==> FitsTable(r) && forall q :: q in received ==> q.key != r.key
    requires forall i, j :: 0 <= i < j < |records| ==> records[i].key != records[j].key
    ensures InPage(start, received, records, i + 1, ApplyKnown(a, records[i], readable).value)
  {
    var r, sofar := records[i], received + records[..i];
    assert sofar + [r] == received + records[..i + 1];
    forall q | q in sofar ensures q.key != r.key {
      if q in records[..i] {
        var j :| 0 <= j < i && records[j] == q;
      }
    }
    RecordProgresses(start, sofar, a, r, readable);
    forall j | i < j < |records| ensures ViewHolds(start, sofar + [r], ApplyKnown(a, r, readable).value, records[j].key) {
      NextView(start, sofar, a, r, readable, records[j].key);
    }
  }

  /** After the first records of a page: the view is what they make of the first one, all received so far is in
      effect, titles differ, and found are the unreadable ones. */
  ghost predicate PageState(first: Applying, start: map<Key, Local>, received: seq<PageRow>, records: seq<PageRow>,
                            readable: PageRow -> bool, i: nat, a: Applying, found: seq<Key>) {
    && InPage(start, received, records, i, a) && ApplyRecordsTo(first, records[..i], readable) == Some(a) && TitlesDiffer(a.rows)
    && a.poisoned == first.poisoned + (set k | k in found) && forall k :: k in found ==> Unreadable(records[..i], readable, k)
  }

  lemma FirstPageState(start: map<Key, Local>, received: seq<PageRow>, records: seq<PageRow>, readable: PageRow -> bool, a: Applying)
    requires Progressing(start, received, Applying(a.rows, map[], a.poisoned)) && a.known == Snapshot(a.rows, records) && TitlesDiffer(a.rows)
    ensures PageState(a, start, received, records, readable, 0, a, [])
  {
    assert received + records[..0] == received;
  }

  lemma PageStateMeans(first: Applying, start: map<Key, Local>, received: seq<PageRow>, records: seq<PageRow>,
                       readable: PageRow -> bool, i: nat, a: Applying, found: seq<Key>)
    requires i <= |records| && PageState(first, start, received, records, readable, i, a, found)
    requires first.known == Snapshot(first.rows, records)
    ensures TitlesDiffer(a.rows) && WrittenBy(first.rows, records, readable, i, a.rows)
    ensures Progressing(start, received + records[..i], Applying(a.rows, map[], a.poisoned))
    ensures a.poisoned == first.poisoned + (set k | k in found) && forall k :: k in found ==> Unreadable(records[..i], readable, k)
  {
    WrittenFrom(first, records, readable, i);
  }

  lemma NextPageState(first: Applying, start: map<Key, Local>, received: seq<PageRow>, records: seq<PageRow>,
                      readable: PageRow -> bool, i: nat, a: Applying, found: seq<Key>)
    requires i < |records| && PageState(first, start, received, records, readable, i, a, found)
    requires ApplyKnown(a, records[i], readable(records[i])).Some?
    requires forall r :: r in records ==> FitsTable(r) && forall q :: q in received ==> q.key != r.key
    requires forall i, j :: 0 <= i < j < |records| ==> records[i].key != records[j].key
    ensures var b := ApplyKnown(a, records[i], readable(records[i])).value; var k := records[i].key;
      PageState(first, start, received, records, readable, i + 1, b, if k in b.poisoned && k !in a.poisoned then found + [k] else found)
  {
    var r := records[i];
    NextInPage(start, received, records, i, a, readable(r));
    FoundGrows(records, i, a, readable, found);
    RecordKeepsTitles(a, r, readable(r));
    assert records[..i + 1][..i] == records[..i];
  }

  /** One record more: what was found stays found, and a record newly poisoned is unreadable. */
  lemma FoundGrows(records: seq<PageRow>, i: nat, a: Applying, readable: PageRow -> bool, found: seq<Key>)
    requires i < |records| && ApplyKnown(a, records[i], readable(records[i])).Some?
    requires forall k :: k in found ==> Unreadable(records[..i], readable, k)
    ensures forall k :: k in found ==> Unreadable(records[..i + 1], readable, k)
    ensures var r := records[i]; var b := ApplyKnown(a, r, readable(r)).value;
      b.poisoned == a.poisoned || (b.poisoned == a.poisoned + {r.key} && Unreadable(records[..i + 1], readable, r.key))
  {
    assert records[..i + 1] == records[..i] + [records[i]];
    UnreadableGrows(records[..i], [records[i]], readable);
    var r := records[i];
    if Live(r.row) && !readable(r) {
      assert r in records[..i + 1];
    }
  }

  lemma UnreadableGrows(a: seq<PageRow>, b: seq<PageRow>, readable: PageRow -> bool)
    ensures forall k :: Unreadable(a, readable, k) || Unreadable(b, readable, k) ==> Unreadable(a + b, readable, k)
  {
    forall k | Unreadable(a, readable, k) || Unreadable(b, readable, k) ensures Unreadable(a + b, readable, k) {
      var r :| (r in a || r in b) && r.key == k && Live(r.row) && !readable(r);
      assert r in a + b;
    }
  }

  /** A page as the pull loop uses it: the next rows above the cursor, with progress while there are more. */
  ghost predicate NextRows(server: Server, user: Id, since: nat, page: Page) {
    && since <= page.watermark
    && (forall r :: r in page.records <==> IsAbove(server, user, since, page.watermark, r))
    && (forall i, j :: 0 <= i < j < |page.records| ==> page.records[i].key != page.records[j].key)
    && (page.more ==> page.records != [])
    && (!page.more ==> forall k :: k in server.rows && server.rows[k].owner == user ==> server.rows[k].serverSeq <= page.watermark)
    && (page.watermark == since || Reached(server, user, page.watermark))
  }

  /** Some row of the user carries this very sequence. */
  ghost predicate Reached(server: Server, user: Id, at: nat) {
    exists k :: k in server.rows && server.rows[k].owner == user && server.rows[k].serverSeq == at
  }

  lemma PageIsNext(server: Server, user: Id, since: nat, limit: nat)
    requires SeqsSound(server, user) && limit >= 1
    ensures NextRows(server, user, since, PullPage(server, user, since, limit))
  {
    PageIsComplete(server, user, since, limit);
    WatermarkIsDelivered(server, user, since, limit);
    CompleteIsNext(server, user, since, limit, PullPage(server, user, since, limit));
  }

  lemma CompleteIsNext(server: Server, user: Id, since: nat, limit: nat, page: Page)
    requires limit >= 1 && since <= page.watermark
    requires forall r :: r in page.records <==>
      (r.key in server.rows && server.rows[r.key] == r.row && r.row.owner == user && since < r.row.serverSeq <= page.watermark)
    requires forall i, j :: 0 <= i < j < |page.records| ==> page.records[i].key != page.records[j].key
    requires !page.more ==> forall k :: k in Above(server, user, since) ==> server.rows[k].serverSeq <= page.watermark
    requires page.more <==> |Above(server, user, since)| > limit
    requires |page.records| == Min(limit, |Above(server, user, since)|)
    requires page.watermark == since || exists r :: r in page.records && r.row.serverSeq == page.watermark
    ensures NextRows(server, user, since, page)
  {
  }

  /** Rows left above the page are fewer than above the cursor, if the page delivered any. */
  lemma FewerAbove(met: Server, s: Server, user: Id, since: nat, page: Page)
    requires NextRows(met, user, since, page) && page.records != []
    requires forall k :: k in s.rows ==> k in met.rows && s.rows[k] == met.rows[k]
    ensures |Above(s, user, page.watermark)| < |Above(met, user, since)|
  {
    var r := page.records[0];
    assert r in page.records;
    var left, all := Above(s, user, page.watermark), Above(met, user, since);
    assert r.key in all - left;
    SubsetCount(left, all - {r.key});
  }

  /** A purge right after a device reported `since` takes tombstones up to there, and cards that fall. */
  lemma PurgesConfirmed(before: Server, reported: Server, s: Server, user: Id, device: Id, since: nat, now: Time)
    requires ReportDevice(before.devices, user, device, Some(since), now).Registered?
    requires reported == before.(devices := ReportDevice(before.devices, user, device, Some(since), now).devices)
    requires s == Purge(reported, user, now)
    ensures PurgedTo(before, s, user, since)
  {
    assert device in Active(reported.devices, user, now);
    forall k | k in before.rows && k !in s.rows
      ensures (before.rows[k].owner == user && !Live(before.rows[k]) && before.rows[k].serverSeq <= since)
              || MayFall(before, user, since, before.rows[k])
    {
      PurgeRemovesOnly(reported, user, now, k);
    }
  }

  lemma PurgesAddUp(s0: Server, s1: Server, s2: Server, user: Id, upTo: nat)
    requires PurgedTo(s0, s1, user, upTo) && PurgedTo(s1, s2, user, upTo)
    ensures PurgedTo(s0, s2, user, upTo)
  {
  }

  lemma PageFits(s0: Server, met: Server, user: Id, since: nat, page: Page)
    requires BodiesFit(s0.rows) && (forall k :: k in met.rows ==> k in s0.rows && met.rows[k] == s0.rows[k])
    requires NextRows(met, user, since, page)
    ensures forall r :: r in page.records ==> FitsTable(r)
  {
    forall r | r in page.records ensures FitsTable(r) {
      assert IsAbove(met, user, since, page.watermark, r);
    }
  }

  /** After the next page: what was received before and the page together are what is due up to the page's
      watermark. */
  lemma DeliveredExtends(s0: Server, met: Server, s: Server, user: Id, from: nat, since: nat, page: Page, received: seq<PageRow>)
    requires from <= since && NextRows(met, user, since, page) && Delivered(s0, met, user, from, since, received)
    requires PurgedTo(s0, met, user, since) && PurgedTo(met, s, user, since) && PurgedTo(s0, s, user, since)
    ensures forall r, q :: r in page.records && q in received ==> q.key != r.key
    ensures Delivered(s0, s, user, from, page.watermark, received + page.records)
    ensures forall r :: IsAbove(s, user, from, since, r) ==> r in received
  {
    forall r, q | r in page.records && q in received ensures q.key != r.key {
      assert IsAbove(met, user, since, page.watermark, r) && IsAbove(s0, user, from, since, q);
    }
    var both := received + page.records;
    forall i, j | 0 <= i < j < |both| ensures both[i].key != both[j].key {
      if i < |received| <= j { assert received[i] in received && page.records[j - |received|] in page.records; }
    }
    forall r | r in both ensures IsAbove(s0, user, from, page.watermark, r) {
      if r in page.records { assert IsAbove(met, user, since, page.watermark, r); }
    }
    forall r | IsAbove(s, user, from, page.watermark, r) ensures r in both {
      assert IsAbove(met, user, from, since, r) || IsAbove(met, user, since, page.watermark, r);
    }
    forall r | IsAbove(s0, user, from, page.watermark, r) && r !in both
      ensures r.key !in s.rows && MayFall(s0, user, page.watermark, r.row)
    {
      MissingFell(s0, met, user, from, since, page, received, r);
    }
  }

  /** A row of the start that is neither received nor in the page went with its topic. */
  lemma MissingFell(s0: Server, met: Server, user: Id, from: nat, since: nat, page: Page, received: seq<PageRow>, r: PageRow)
    requires from <= since && NextRows(met, user, since, page) && Delivered(s0, met, user, from, since, received)
    requires PurgedTo(s0, met, user, since)
    requires IsAbove(s0, user, from, page.watermark, r) && r !in received && r !in page.records
    ensures r.key !in met.rows && MayFall(s0, user, page.watermark, r.row)
  {
    if r.row.serverSeq <= since {
      assert IsAbove(s0, user, from, since, r);
    } else if r.key in met.rows {
      assert IsAbove(met, user, since, page.watermark, r);
    }
  }

  lemma FewerSeqsSound(s0: Server, s: Server, user: Id)
    requires SeqsSound(s0, user) && s.seqs == s0.seqs
    requires forall k :: k in s.rows ==> k in s0.rows && s.rows[k] == s0.rows[k]
    ensures SeqsSound(s, user)
  {
  }

  lemma FewerDelivered(s0: Server, met: Server, s: Server, user: Id, from: nat, upTo: nat, received: seq<PageRow>)
    requires Delivered(s0, met, user, from, upTo, received) && PurgedTo(met, s, user, upTo)
    ensures forall r :: IsAbove(s, user, from, upTo, r) ==> r in received
  {
    forall r | IsAbove(s, user, from, upTo, r) ensures r in received {
      assert IsAbove(met, user, from, upTo, r);
    }
  }

  /** What one page changes, the local rows apart. */
  lemma AfterPage(s0: Server, met: Server, s: Server, user: Id, from: nat, since: nat, page: Page, received: seq<PageRow>)
    requires from <= since && BodiesFit(s0.rows) && PurgedTo(s0, met, user, since) && PurgedTo(met, s, user, since)
    requires Delivered(s0, met, user, from, since, received) && NextRows(met, user, since, page)
    ensures forall r :: r in page.records ==> FitsTable(r) && forall q :: q in received ==> q.key != r.key
    ensures forall i, j :: 0 <= i < j < |page.records| ==> page.records[i].key != page.records[j].key
    ensures since <= page.watermark && PurgedTo(s0, s, user, since) && PurgedTo(s0, s, user, page.watermark)
    ensures Delivered(s0, s, user, from, page.watermark, received + page.records)
    ensures FromServer(s0, user, from, received + page.records)
    ensures forall r :: IsAbove(s, user, from, since, r) ==> r in received
    ensures page.watermark == since || Reached(s0, user, page.watermark)
    ensures !page.more ==> NothingAbove(s, user, page.watermark)
    ensures page.more ==> |Above(s, user, page.watermark)| < |Above(met, user, since)|
  {
    PurgesAddUp(s0, met, s, user, since);
    PageFits(s0, met, user, since, page);
    DeliveredExtends(s0, met, s, user, from, since, page, received);
    LaterReached(s0, met, s, user, since, page);
    if page.more { FewerAbove(met, s, user, since, page); }
  }

  lemma PartFromServer(s0: Server, user: Id, from: nat, received: seq<PageRow>, records: seq<PageRow>, n: nat)
    requires FromServer(s0, user, from, received + records) && n <= |records|
    ensures FromServer(s0, user, from, received + records[..n])
  {
    var all, part := received + records, received + records[..n];
    forall i | 0 <= i < |part| ensures part[i] == all[i] && part[i] in all {
    }
  }

  /** A pull begins. */
  lemma PullStarts(s: Server, user: Id, cursor: nat, rows: map<Key, Local>, readable: PageRow -> bool)
    requires BodiesFit(s.rows) && SeqsSound(s, user) && LocalFit(rows)
    ensures PullState(s, s, user, cursor, cursor, rows, rows, readable, [], {})
  {
  }

  /** After a page the cursor is the old one or the sequence of a row of the start; and if there is no more,
      no row is left above it. */
  lemma LaterReached(s0: Server, met: Server, s: Server, user: Id, since: nat, page: Page)
    requires NextRows(met, user, since, page)
    requires forall k :: k in met.rows ==> k in s0.rows && met.rows[k] == s0.rows[k]
    requires forall k :: k in s.rows ==> k in met.rows && s.rows[k] == met.rows[k]
    ensures page.watermark == since || Reached(s0, user, page.watermark)
    ensures !page.more ==> NothingAbove(s, user, page.watermark)
  {
    if page.watermark != since {
      var k :| k in met.rows && met.rows[k].owner == user && met.rows[k].serverSeq == page.watermark;
      assert k in s0.rows;
    }
  }

  lemma DroppedAreRowless(q: Queue, rows: map<Key, Local>, items: seq<Item>, now: Time, size: Mutation -> nat, b: Batch)
    requires TakenFrom(q, items) && b == Build(items, rows, now, size)
    ensures forall k :: k in b.dropped ==> k in q && q[k].operation.Upsert? && k !in rows
  {
    var _ := BatchFromOutbox(q, items, rows, now, size);
  }

  lemma DropsJustified(q0: Queue, rows: map<Key, Local>, q: Queue, dropped: set<Key>, log: seq<Exchange>)
    requires DrainedTo(q0, rows, q, log) && Alive(q)
    requires forall k :: k in dropped && k in q ==> q[k].operation.Upsert? && k !in rows
    ensures DrainedTo(q0, rows, q - dropped, log)
  {
  }

  lemma SettledGrows(log: seq<Exchange>, x: Exchange, item: Item)
    requires SettledIn(log, item)
    ensures SettledIn(log + [x], item)
  {
    var y, i :| y in log && i in y.batch.items && i.opId == item.opId && i.key == item.key && Settles(y.batch.items, y.ack, i);
    assert y in log + [x];
  }

  lemma SettledNow(log: seq<Exchange>, x: Exchange, item: Item, i: Item)
    requires i in x.batch.items && i.opId == item.opId && i.key == item.key && Settles(x.batch.items, x.ack, i)
    ensures SettledIn(log + [x], item)
  {
    assert x in log + [x];
  }

  /** The answer settles whatever it settles as far as it is heard. */
  lemma HeardSettles(rows: map<Key, Local>, items: seq<Item>, ack: Ack, item: Item)
    requires Settles(items, Heard(rows, ack), item)
    ensures Settles(items, ack, item)
  {
  }

  /** What an answer removes it settles. */
  lemma AckJustified(q0: Queue, rows: map<Key, Local>, q: Queue, x: Exchange, wake: Id -> Time, log: seq<Exchange>, held: map<Key, Local>)
    requires DrainedTo(q0, rows, q, log) && Alive(q) && TakenFrom(q, x.batch.items)
    ensures DrainedTo(q0, rows, ApplyAck(q, x.batch.items, Heard(held, x.ack), wake), log + [x])
  {
    var heard := Heard(held, x.ack);
    var after := ApplyAck(q, x.batch.items, heard, wake);
    forall k ensures At(after, k) == Fate(q, x.batch.items, heard, wake, k) {
      AckIsFate(q, x.batch.items, heard, wake, k);
    }
    forall k | k in after ensures k in q0 && after[k].(attempts := 0, nextRetryAt := 0) == q0[k].(attempts := 0, nextRetryAt := 0) {
      assert At(after, k).Some?;
    }
    forall k | k in q0 && k !in after ensures (q0[k].operation.Upsert? && k !in rows) || SettledIn(log + [x], q0[k]) {
      assert At(after, k).None?;
      if k in q {
        HeardSettles(held, x.batch.items, x.ack, q[k]);
        SettledNow(log, x, q0[k], q[k]);
      } else if SettledIn(log, q0[k]) {
        SettledGrows(log, x, q0[k]);
      }
    }
  }

  lemma LogGrows(user: Id, device: Id, check: Check, s0: Server, log: seq<Exchange>, x: Exchange, s1: Server)
    requires Led(user, device, check, s0, log, x.met) && |Admitted(x.batch.mutations, x.now, check)| <= |x.envs|
    requires (s1, x.ack) == Answer(user, device, check, x)
    ensures Led(user, device, check, s0, log + [x], s1)
    ensures forall rows :: RowsAfter(rows, log + [x]) == ApplyConflicts(RowsAfter(rows, log), Heard(RowsAfter(rows, log), x.ack).conflicts)
    ensures forall failed, rows ::
      FailedAfter(failed, rows, log + [x])
      == AddFailed(FailedAfter(failed, rows, log), GivenUp(x.batch.items, Heard(RowsAfter(rows, log), x.ack).rejected))
    ensures NewestOf(log + [x]) == Max(NewestOf(log), NewestIn(x.batch.mutations, x.ack.accepted))
  {
    assert (log + [x])[..|log|] == log;
  }

  /** One more exchange in the log. */
  lemma ExchangeNoted(user: Id, device: Id, check: Check, s0: Server, log: seq<Exchange>, x: Exchange, s1: Server,
                      q0: Queue, rows0: map<Key, Local>, failed0: seq<FailedOp>, q: Queue, wake: Id -> Time,
                      q1: Queue, rows1: map<Key, Local>, failed1: seq<FailedOp>) returns (log1: seq<Exchange>)
    requires Led(user, device, check, s0, log, x.met) && |Admitted(x.batch.mutations, x.now, check)| <= |x.envs|
    requires (s1, x.ack) == Answer(user, device, check, x)
    requires DrainedTo(q0, rows0, q, log) && Alive(q) && TakenFrom(q, x.batch.items)
    requires HeardFrom(x, q, RowsAfter(rows0, log), FailedAfter(failed0, rows0, log), wake, q1, rows1, failed1)
    ensures DrainedTo(q0, rows0, q1, log1) && Led(user, device, check, s0, log1, s1)
    ensures rows1 == RowsAfter(rows0, log1) && failed1 == FailedAfter(failed0, rows0, log1)
    ensures Taken(RowsAfter(rows0, log), x.ack.conflicts) != x.ack.conflicts ==> EndsBroken(rows0, log1)
    ensures NewestOf(log1) == Max(NewestOf(log), NewestIn(x.batch.mutations, x.ack.accepted))
  {
    AckJustified(q0, rows0, q, x, wake, log, RowsAfter(rows0, log));
    LogGrows(user, device, check, s0, log, x, s1);
    log1 := log + [x];
    assert log1[..|log|] == log;
  }

  /** Whatever an exchange's answer accepts, the server has logged. */
  lemma {:induction false} AcceptedAreLogged(user: Id, device: Id, check: Check, s0: Server, log: seq<Exchange>, s1: Server)
    requires Led(user, device, check, s0, log, s1)
    ensures s0.ops <= s1.ops
    ensures forall x, o :: x in log && o in x.ack.accepted ==> (user, o) in s1.ops
  {
    if log != [] {
      var n := |log| - 1;
      var x := log[n];
      AcceptedAreLogged(user, device, check, s0, log[..n], x.met);
      var s := Reported(x.met, user, device, x.now);
      BatchKeepsOps(s, user, device, Admitted(x.batch.mutations, x.now, check), IsHard(s, user, device, x.now), x.envs);
      forall y, o | y in log && o in y.ack.accepted ensures (user, o) in s1.ops {
        assert y in log[..n] || y == x;
      }
    }
  }

  lemma {:induction false} RowsKeepKeys(rows: map<Key, Local>, log: seq<Exchange>)
    ensures RowsAfter(rows, log).Keys == rows.Keys
  {
    if log != [] {
      RowsKeepKeys(rows, log[..|log| - 1]);
      var before := RowsAfter(rows, log[..|log| - 1]);
      ConflictsKeepKeys(before, Heard(before, log[|log| - 1].ack).conflicts);
    }
  }

  lemma {:induction false} ConflictsKeepKeys(rows: map<Key, Local>, conflicts: seq<Conflict>)
    ensures ApplyConflicts(rows, conflicts).Keys == rows.Keys
  {
    if conflicts != [] {
      ConflictsKeepKeys(rows, conflicts[..|conflicts| - 1]);
    }
  }

  /** The queue in its order is made of all its items, each once. */
  lemma OrderTakesAll(q: Queue, order: seq<Key>)
    requires IsQueueOrder(q, order) && Alive(q) && DistinctOps(q)
    ensures TakenFrom(q, ItemsOf(q, order))
    ensures forall k :: k in q ==> q[k] in ItemsOf(q, order)
  {
    var items := ItemsOf(q, order);
    forall i, j | 0 <= i < j < |items| ensures items[i].opId != items[j].opId && items[i].key != items[j].key {
      assert order[i] in order && order[j] in order;
    }
    forall item | item in items ensures item.key in q && q[item.key] == item {
      var i :| 0 <= i < |items| && items[i] == item;
      assert order[i] in order;
    }
    forall k | k in q ensures q[k] in items {
      var i :| 0 <= i < |order| && order[i] == k;
      assert items[i] == q[k];
    }
  }

  /** A batch is taken from what building leaves of the queue, which loses only rowless upserts. */
  lemma BatchIsTaken(q: Queue, rows: map<Key, Local>, items: seq<Item>, now: Time, size: Mutation -> nat, b: Batch)
    requires Alive(q) && DistinctOps(q) && TakenFrom(q, items) && b == Build(items, rows, now, size)
    ensures var left := q - b.dropped;
      Alive(left) && DistinctOps(left) && TakenFrom(left, b.items) && Carries(b, rows) && 0 <= AttemptsLeft(left) <= AttemptsLeft(q)
  {
    FewerLeft(q, b.dropped);
    var _ := BatchFromOutbox(q, items, rows, now, size);
    forall item | item in b.items ensures item.key !in b.dropped {
      TakenStays(rows, b, item);
    }
  }

  lemma FewerLeft(q: Queue, dropped: set<Key>)
    requires Alive(q) && DistinctOps(q)
    ensures Alive(q - dropped) && DistinctOps(q - dropped) && 0 <= AttemptsLeft(q - dropped) <= AttemptsLeft(q)
  {
    FewerAttempts(q - dropped, q);
    LeftNonNegative(q - dropped);
  }

  lemma TakenStays(rows: map<Key, Local>, b: Batch, item: Item)
    requires Carries(b, rows) && item in b.items
    requires item.key in b.dropped ==> item.key !in rows && item.operation.Upsert?
    ensures item.key !in b.dropped
  {
    var i :| 0 <= i < |b.items| && b.items[i] == item;
    assert MutationFor(b.items[i], rows) == Some(b.mutations[i]);
  }

  /** An empty batch leaves only items that wait. */
  lemma NothingDue(q: Queue, rows: map<Key, Local>, items: seq<Item>, now: Time, size: Mutation -> nat, b: Batch)
    requires Alive(q) && (forall k :: k in q ==> q[k] in items) && b == Build(items, rows, now, size) && b.mutations == []
    ensures forall k :: k in q - b.dropped ==> q[k].nextRetryAt > now
  {
    EmptyBatchMeansWaiting(items, rows, now, size, EMPTY_BATCH);
    forall k | k in q - b.dropped ensures q[k].nextRetryAt > now {
      assert q[k] in items;
    }
  }

  /** An ack naming every operation of a non-empty batch uses up attempts. */
  lemma AnsweredBatchDrains(q: Queue, rows: map<Key, Local>, b: Batch, ack: Ack, wake: Id -> Time)
    requires Alive(q) && DistinctOps(q) && TakenFrom(q, b.items) && Carries(b, rows) && b.mutations != []
    requires multiset(ack.accepted) + multiset(RejectedIds(ack.rejected)) == multiset(OpIds(b.mutations))
    ensures var after := ApplyAck(q, b.items, ack, wake);
      Alive(after) && DistinctOps(after) && 0 <= AttemptsLeft(after) < AttemptsLeft(q)
  {
    var after := ApplyAck(q, b.items, ack, wake);
    AckLowersAttempts(q, b.items, ack, wake);
    LeftNonNegative(after);
    var item := b.items[0];
    assert MutationFor(item, rows) == Some(b.mutations[0]);
    assert OpIds(b.mutations)[0] == item.opId;
    assert item.opId in multiset(OpIds(b.mutations));
    NamedIsAnswered(b.items, ack, item);
    assert item in b.items && Answers(b.items, ack, item);
    AckKeepsOps(q, b.items, ack, wake);
  }

  /** What an answer makes of the stores, as far as it is heard. */
  ghost predicate HeardFrom(x: Exchange, q: Queue, rows: map<Key, Local>, failed: seq<FailedOp>, wake: Id -> Time,
                            q1: Queue, rows1: map<Key, Local>, failed1: seq<FailedOp>) {
    var heard := Heard(rows, x.ack);
    && q1 == ApplyAck(q, x.batch.items, heard, wake) && rows1 == ApplyConflicts(rows, heard.conflicts)
    && failed1 == AddFailed(failed, GivenUp(x.batch.items, heard.rejected))
  }

  /** However far an answer is heard, the stores stay in shape. */
  lemma HeardKeepsValid(q: Queue, rows: map<Key, Local>, b: Batch, ack: Ack, wake: Id -> Time)
    requires Alive(q) && DistinctOps(q) && TakenFrom(q, b.items) && LocalFit(rows) && TitlesDiffer(rows)
    ensures var heard := Heard(rows, ack); var after := ApplyAck(q, b.items, heard, wake);
      && Alive(after) && DistinctOps(after) && 0 <= AttemptsLeft(after) <= AttemptsLeft(q)
      && LocalFit(ApplyConflicts(rows, heard.conflicts)) && TitlesDiffer(ApplyConflicts(rows, heard.conflicts))
  {
    var heard := Heard(rows, ack);
    AckLowersAttempts(q, b.items, heard, wake);
    LeftNonNegative(ApplyAck(q, b.items, heard, wake));
    AckKeepsOps(q, b.items, heard, wake);
    ConflictsKeepFit(rows, heard.conflicts);
    TakenKeepsTitles(rows, ack.conflicts);
  }

  lemma TakesOneMore(rows: map<Key, Local>, q: Queue, items: seq<Item>, conflicts: seq<Conflict>, i: nat)
    requires i < |conflicts| && Taken(rows, conflicts[..i]) == conflicts[..i]
    requires LetsIn(ApplyConflicts(rows, conflicts[..i]), conflicts[i])
    ensures Taken(rows, conflicts[..i + 1]) == conflicts[..i + 1]
    ensures ApplyConflicts(rows, conflicts[..i + 1]) == ApplyConflicts(ApplyConflicts(rows, conflicts[..i]), [conflicts[i]])
    ensures var item := FindByRecord(items, conflicts[i].topicId); var q1 := RemoveConflicts(q, items, conflicts[..i]);
      RemoveConflicts(q, items, conflicts[..i + 1]) == if item.Some? then RemoveIfOp(q1, item.value) else q1
  {
    var sofar, c := conflicts[..i], conflicts[i];
    assert conflicts[..i + 1] == sofar + [c];
    TakenGrows(rows, sofar, c);
    ConflictsOneByOne(rows, sofar, c);
    RemovesOneMore(q, items, sofar, c);
  }

  lemma TakenGrows(rows: map<Key, Local>, sofar: seq<Conflict>, c: Conflict)
    requires Taken(rows, sofar) == sofar && LetsIn(ApplyConflicts(rows, sofar), c)
    ensures Taken(rows, sofar + [c]) == sofar + [c]
  {
    assert (sofar + [c])[..|sofar|] == sofar;
  }

  lemma RemovesOneMore(q: Queue, items: seq<Item>, sofar: seq<Conflict>, c: Conflict)
    ensures var item := FindByRecord(items, c.topicId); var q1 := RemoveConflicts(q, items, sofar);
      RemoveConflicts(q, items, sofar + [c]) == if item.Some? then RemoveIfOp(q1, item.value) else q1
  {
    assert (sofar + [c])[..|sofar|] == sofar;
  }

  /** The renames before one that the index refuses are taken over, and no more. */
  lemma {:induction false} TakenEnds(rows: map<Key, Local>, conflicts: seq<Conflict>, i: nat)
    requires i < |conflicts| && Taken(rows, conflicts[..i]) == conflicts[..i]
    requires !LetsIn(ApplyConflicts(rows, conflicts[..i]), conflicts[i])
    ensures Taken(rows, conflicts) == conflicts[..i]
    decreases |conflicts|
  {
    var n := |conflicts| - 1;
    if i < n {
      assert conflicts[..n][..i] == conflicts[..i];
      TakenEnds(rows, conflicts[..n], i);
    }
  }

  lemma AckKeepsOps(q: Queue, items: seq<Item>, ack: Ack, wake: Id -> Time)
    requires Alive(q) && DistinctOps(q) && TakenFrom(q, items)
    ensures DistinctOps(ApplyAck(q, items, ack, wake))
  {
    var after := ApplyAck(q, items, ack, wake);
    forall k | k in after ensures k in q && after[k].opId == q[k].opId {
      AckIsFate(q, items, ack, wake, k);
      assert At(after, k).Some?;
    }
  }

  lemma {:induction false} ConflictsKeepFit(rows: map<Key, Local>, conflicts: seq<Conflict>)
    requires LocalFit(rows)
    ensures LocalFit(ApplyConflicts(rows, conflicts))
  {
    if conflicts != [] {
      ConflictsKeepFit(rows, conflicts[..|conflicts| - 1]);
    }
  }

  /** The oldest keys are in `order`, each once and by age; the others are in `rest`. */
  ghost predicate OldestTaken(q: Queue, order: seq<Key>, rest: set<Key>) {
    && rest <= q.Keys && (forall k :: k in order <==> k in q && k !in rest)
    && (forall i, j :: 0 <= i < j < |order| ==> order[i] != order[j])
    && (forall i, j :: 0 <= i < j < |order| ==> order[i] in q && order[j] in q && q[order[i]].createdAt <= q[order[j]].createdAt)
    && (forall j, k :: j in order && k in rest ==> q[j].createdAt <= q[k].createdAt)
  }

  lemma TakeOldest(q: Queue, order: seq<Key>, rest: set<Key>, k: Key)
    requires OldestTaken(q, order, rest) && k in rest
    requires forall j :: j in rest ==> q[k].createdAt <= q[j].createdAt
    ensures OldestTaken(q, order + [k], rest - {k})
  {
    var more := order + [k];
    forall i, j | 0 <= i < j < |more|
      ensures more[i] != more[j] && more[i] in q && more[j] in q && q[more[i]].createdAt <= q[more[j]].createdAt
    {
      assert more[i] == order[i] && order[i] in order;
    }
  }

  lemma {:induction false} OldestExists(q: Queue, ks: set<Key>)
    requires ks != {} && ks <= q.Keys
    ensures exists k :: k in ks && forall j :: j in ks ==> q[k].createdAt <= q[j].createdAt
    decreases |ks|
  {
    var k :| k in ks;
    if ks != {k} {
      OldestExists(q, ks - {k});
      var l :| l in ks - {k} && forall j :: j in ks - {k} ==> q[l].createdAt <= q[j].createdAt;
      var best := if q[k].createdAt <= q[l].createdAt then k else l;
      assert forall j :: j in ks ==> q[best].createdAt <= q[j].createdAt;
    }
  }
}
