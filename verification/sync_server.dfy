// The sync service as an object over its tables. Each method does what its transaction does,
// statement by statement, and is proved against the functions on values.

module SyncServer {
  import opened SyncTypes
  import opened LastWriteWins
  import opened ServerApply
  import opened Titles
  import opened Validation
  import opened PushBatch
  import opened Devices
  import opened Paging
  import opened PushAnswers

  /** How a transaction body ends: with its conflict, or with an error that rolls everything back. */
  datatype Outcome = Done(conflict: Option<Conflict>) | Failed(failure: Failure)

  /** A body agrees with the specified transaction: same end, and on commit the same tables. */
  ghost predicate Agrees(res: Outcome, now: Server, tx: Tx) {
    match tx
    case Commit(s1, conflict) => res == Done(conflict) && now == s1
    case Abort(failure) => res == Failed(failure)
  }

  class SyncService {
    var rows: map<Key, Row>
    var seqs: map<Id, nat>
    var ops: set<(Id, Id)>
    var devices: map<Id, DeviceRow>

    ghost function View(): Server
      reads this
    {
      Server(rows, seqs, ops, devices)
    }

    /** The constraints of the schema: body kinds, foreign keys, the unique index on live titles. */
    ghost predicate Valid()
      reads this
    {
      Integrity(rows)
    }

    constructor ()
      ensures Valid() && View() == Server(map[], map[], {}, map[])
    {
      rows, seqs, ops, devices := map[], map[], {}, map[];
    }

    // ----- one transaction -----

    /** Allocates the next sequence of a user whose row is locked. */
    method NextSeq(user: Id) returns (n: nat)
      requires user in seqs
      modifies `seqs
      ensures n == SeqOf(old(View()), user) + 1 && seqs == old(seqs)[user := n]
    {
      n := seqs[user] + 1;
      seqs := seqs[user := n];
    }

    method StoreRow(user: Id, k: Key, row: Row)
      requires user in seqs
      modifies `rows, `seqs
      ensures View() == PutRow(old(View()), user, k, row)
    {
      var n := NextSeq(user);
      rows := rows[k := row.(serverSeq := n)];
    }

    /** Writes a topic; `ok` is false when the write breaks the unique title index. */
    method StoreTopic(user: Id, k: Key, row: Row) returns (ok: bool)
      requires user in seqs && UniqueTitles(rows) && k.table.Topics? && row.body.TopicBody? && row.owner == user
      modifies `rows, `seqs
      ensures View() == PutRow(old(View()), user, k, row)
      ensures ok <==> UniqueTitles(rows)
    {
      PutTopicUniqueIff(View(), user, k, row);
      ok := !(Live(row) && exists j :: j in rows && j != k && LiveTitle(rows, user, row.body.title, j));
      StoreRow(user, k, row);
    }

    method ResolveTopicTitleConflict(user: Id, id: Id, title: string, at: Time, now: Time)
      returns (conflict: Option<Conflict>, ok: bool)
      requires user in seqs && Valid() && (Key(Topics, id) in rows ==> rows[Key(Topics, id)].owner == user)
      modifies `rows, `seqs
      ensures UniqueTitles(rows) <==> ok
      ensures var clash := FindClash(old(rows), user, id, title);
        if clash.None? then conflict.None? && ok && View() == old(View())
        else conflict.Some? && (View(), conflict.value) == SettleTitle(old(View()), user, id, title, at, clash.value, now)
    {
      ghost var clash := FindClash(rows, user, id, title);
      if !(exists k :: k in rows && Clashes(rows, user, id, title, k)) {
        return None, true;
      }
      var other :| other in rows && Clashes(rows, user, id, title, other);
      assert clash == Some(other);
      var incomingWins := IncomingKeepsTitle(id, at, other.id, rows[other].updatedAt);
      var loser := if incomingWins then other.id else id;
      var newTitle := Disambiguated(title, loser);
      var k := Key(Topics, loser);
      ok := true;
      if k in rows {
        ok := StoreTopic(user, k, Retitled(rows[k], newTitle).(updatedAt := now));
      }
      conflict := Some(Conflict(loser, title, newTitle, now));
    }

    method ApplyTopicUpsert(user: Id, device: Id, m: Mutation, now: Time) returns (res: Outcome)
      requires user in seqs && m.key.table.Topics? && Valid()
      modifies `rows, `seqs
      ensures Agrees(res, View(), ServerApply.ApplyTopicUpsert(old(View()), user, device, m, now))
    {
      if m.payload.None? || !m.payload.value.body.TopicBody? {
        return Failed(Malformed("Topic upsert missing payload"));
      }
      var r := m.payload.value;
      var k := Key(Topics, r.id);
      if k in rows && rows[k].owner != user {
        return Failed(Forbidden);
      }
      if k in rows && !ShouldApplyIncoming(Some(rows[k].updatedAt), None, Some(k.id), r.updatedAt, device, r.id) {
        return Done(None);
      }
      var conflict, ok := ResolveTopicTitleConflict(user, r.id, r.body.title, r.updatedAt, now);
      if !ok {
        return Failed(ApplyFailed);
      }
      var title := if conflict.Some? && conflict.value.topicId == r.id then conflict.value.newTitle else r.body.title;
      var row := if k in rows
                 then rows[k].(body := StoredBody(r.body), updatedAt := r.updatedAt, deletedAt := None)
                 else Row(user, StoredBody(r.body), r.updatedAt, Truthy(r.deletedAt), 0);
      ok := StoreTopic(user, k, row.(body := row.body.(title := title)));
      return if ok then Done(conflict) else Failed(ApplyFailed);
    }

    method ApplyCardUpsert(user: Id, device: Id, m: Mutation) returns (res: Outcome)
      requires user in seqs && m.key.table.Cards?
      modifies `rows, `seqs
      ensures Agrees(res, View(), ServerApply.ApplyCardUpsert(old(View()), user, device, m))
    {
      if m.payload.None? || !m.payload.value.body.CardBody? {
        return Failed(Malformed("Card upsert missing payload"));
      }
      var r := m.payload.value;
      var k, topic := Key(Cards, r.id), Key(Topics, r.body.topicId);
      if topic !in rows {
        return Failed(TopicNotSynced);
      }
      if rows[topic].owner != user || (k in rows && rows[k].owner != user) {
        return Failed(Forbidden);
      }
      if k in rows && !ShouldApplyIncoming(Some(rows[k].updatedAt), None, Some(k.id), r.updatedAt, device, r.id) {
        return Done(None);
      }
      if k in rows {
        StoreRow(user, k, rows[k].(body := StoredBody(r.body), updatedAt := r.updatedAt, deletedAt := None));
      } else {
        StoreRow(user, k, Row(user, StoredBody(r.body), r.updatedAt, Truthy(r.deletedAt), 0));
      }
      return Done(None);
    }

    method ApplyDelete(user: Id, m: Mutation, now: Time, hard: bool) returns (res: Outcome)
      requires user in seqs
      modifies `rows, `seqs
      ensures Agrees(res, View(), ServerApply.ApplyDelete(old(View()), user, m, now, hard))
    {
      var k := m.key;
      var at := if m.updatedAt == 0 then now else m.updatedAt;
      if k !in rows {
        return Done(None);
      }
      if rows[k].owner != user {
        return Failed(Forbidden);
      }
      if rows[k].updatedAt > at {
        return Done(None);
      }
      if hard {
        DeleteRows({k});
      } else {
        StoreRow(user, k, rows[k].(deletedAt := Some(at), updatedAt := at));
      }
      return Done(None);
    }

    /** Deletes rows; the foreign key takes the cards of a deleted topic along. */
    method DeleteRows(gone: set<Key>)
      modifies `rows
      ensures rows == RemoveRows(old(rows), gone)
    {
      rows := map k | k in rows && k !in gone
                && !(rows[k].body.CardBody? && Key(Topics, rows[k].body.topicId) in gone) :: rows[k];
    }

    /** The whole transaction: lock, write, mark; an error leaves every table as it was. */
    method ApplyMutationWithMark(user: Id, device: Id, m: Mutation, now: Time, hard: bool) returns (res: Outcome)
      requires Valid()
      modifies this
      ensures Valid() && devices == old(devices)
      ensures Agrees(res, View(), ApplyMutation(old(View()), user, device, m, now, hard))
      ensures res.Failed? ==> View() == old(View())
    {
      if user !in seqs {
        return Failed(ApplyFailed);
      }
      var rows0, seqs0 := rows, seqs;
      if m.operation.Delete? {
        res := ApplyDelete(user, m, now, hard);
      } else if m.key.table.Topics? {
        res := ApplyTopicUpsert(user, device, m, now);
      } else {
        res := ApplyCardUpsert(user, device, m);
      }
      if res.Failed? {
        rows, seqs := rows0, seqs0;
      } else {
        ops := ops + {(user, m.opId)};
        ApplyKeepsIntegrity(old(View()), user, device, m, now, hard);
      }
    }

    // ----- a batch -----

    /** One turn of the loop: dedupe, media check, transaction. */
    method ApplyOne(user: Id, device: Id, m: Mutation, hard: bool, env: Env) returns (verdict: Verdict)
      requires Valid()
      modifies this
      ensures Valid() && devices == old(devices)
      ensures (View(), verdict) == ApplyOp(old(View()), user, device, m, hard, env)
    {
      if env.fault.Unavailable? {
        return Refused(ApplyFailed);
      }
      if (user, m.opId) in ops {
        return Accepted(None);
      }
      if env.fault.MediaFault? && m.operation.Upsert? && m.key.table.Cards? {
        return Refused(MediaRefused(env.fault.again));
      }
      var res := ApplyMutationWithMark(user, device, m, env.now, hard);
      if res.Failed? {
        return Refused(res.failure);
      }
      return if env.fault.UnreportedCommit? then Refused(ApplyFailed) else Accepted(res.conflict);
    }

    method ApplyOrderedMutations(user: Id, device: Id, ordered: seq<Mutation>, hard: bool, envs: seq<Env>) returns (ack: Ack)
      requires Valid() && |ordered| <= |envs|
      modifies this
      ensures Valid() && devices == old(devices)
      ensures (View(), ack) == ApplyOrdered(old(View()), user, device, ordered, hard, envs)
      ensures var p := Push(old(View()), user, device, ordered, hard, envs); ack == AckOf(p) && AnswerIs(p, |ordered|)
    {
      ack := EMPTY_ACK;
      for i := 0 to |ordered|
        invariant Valid() && devices == old(devices)
        invariant (View(), ack) == ApplyOrdered(old(View()), user, device, ordered[..i], hard, envs)
      {
        assert ordered[..i + 1][..i] == ordered[..i];
        var verdict := ApplyOne(user, device, ordered[i], hard, envs[i]);
        match verdict {
          case Refused(failure) =>
            ack := ack.(rejected := ack.rejected + [Rejection(ordered[i].opId, failure)]);
          case Accepted(conflict) =>
            var conflicts := ack.conflicts;
            if conflict.Some? { conflicts := conflicts + [conflict.value]; }
            ack := Ack(ack.accepted + [ordered[i].opId], ack.rejected, conflicts);
        }
      }
      assert ordered[..|ordered|] == ordered;
      AnswerIsSo(Push(old(View()), user, device, ordered, hard, envs), |ordered|);
    }

    /** Other devices of the user seen within the window. */
    function OtherActive(user: Id, device: Id, now: Time): set<Id>
      reads `devices
    {
      Active(devices, user, now) - {device}
    }

    /** A pushed batch: clamp, validate, order, apply. Deletes are hard when no other device is active. */
    method ApplyPushBatch(user: Id, device: Id, mutations: seq<Mutation>, now: Time, check: Check, envs: seq<Env>) returns (ack: Ack)
      requires Valid() && |Admitted(mutations, now, check)| <= |envs|
      modifies this
      ensures Valid() && devices == old(devices)
      ensures (View(), ack) == ApplyPush(old(View()), user, device, mutations, now,
                                         old(OtherActive(user, device, now)) == {}, check, envs)
      ensures IsAnswer(ack, Push(old(View()), user, device, Admitted(mutations, now, check),
                                 old(OtherActive(user, device, now)) == {}, envs), ClampAll(mutations, now), check)
    {
      var hard := OtherActive(user, device, now) == {};
      var clamped := seq(|mutations|, i requires 0 <= i < |mutations| => ClampMutationTimes(mutations[i], now));
      assert clamped == ClampAll(mutations, now);
      var valid, malformed := PartitionMalformed(clamped, check);
      var upserts := FilterKind(valid, Upsert);
      var deletes := FilterKind(valid, Delete);
      ack := ApplyOrderedMutations(user, device, upserts + deletes, hard, envs);
      ack := ack.(rejected := malformed + ack.rejected);
      PushAnswerIs(old(View()), user, device, mutations, now, hard, check, envs);
    }

    // ----- a pull -----

    /** The `take` lowest rows of one table above the cursor, in order. */
    method FindMany(user: Id, table: Table, since: nat, take: nat) returns (p: seq<Key>)
      requires SeqsSound(View(), user)
      ensures p == Query(View(), user, table, since, take)
    {
      var matching := set k | k in rows && k.table == table && rows[k].owner == user && rows[k].serverSeq > since;
      assert matching == Matching(View(), user, table, since);
      p := TakeLowest(rows, matching, take);
    }

    /** The rows of one table among these keys, in their order. */
    method RecordsOf(kept: seq<Key>, table: Table) returns (records: seq<PageRow>)
      requires forall k :: k in kept ==> k in rows
      ensures (forall k :: k in OfTable(kept, table) ==> k in rows) && records == Deliver(rows, OfTable(kept, table))
    {
      records := [];
      OfTableElements(kept, table);
      for i := 0 to |kept|
        invariant forall k :: k in OfTable(kept[..i], table) ==> k in rows
        invariant records == Deliver(rows, OfTable(kept[..i], table))
      {
        assert kept[..i + 1] == kept[..i] + [kept[i]];
        OfTableAppend(kept[..i], kept[i], table);
        if kept[i].table == table {
          records := records + [PageRow(kept[i], rows[kept[i]])];
        }
      }
      assert kept[..|kept|] == kept;
    }

    /** Answers a pull from one snapshot: two queries, merged by sequence and cut; topics come first. The
        page holds exactly the user's rows above the cursor up to the watermark, each once and as stored,
        as many as the limit allows, and `more` tells whether any are left above it. */
    method Pull(user: Id, since: nat, limit: nat) returns (page: Page)
      requires SeqsSound(View(), user)
      ensures page == PullPage(View(), user, since, limit) && IsWholePage(View(), user, since, limit, page)
    {
      var topics := FindMany(user, Topics, since, limit + 1);
      var cards := FindMany(user, Cards, since, limit + 1);
      var merged := SortKeys(rows, topics + cards);
      var kept := if |merged| > limit then merged[..limit] else merged;
      MergedIs(View(), user, since, limit, topics, cards, merged, kept);
      assert forall k :: k in kept ==> k in rows;
      var first := RecordsOf(kept, Topics);
      var second := RecordsOf(kept, Cards);
      page := Page(first + second, if kept == [] then since else rows[kept[|kept| - 1]].serverSeq, |merged| > limit);
      Assembled(View(), user, since, limit, merged, kept, page);
    }

    // ----- devices -----

    method Report(user: Id, id: Id, cursor: Option<nat>, now: Time) returns (denial: Option<Denial>)
      modifies `devices
      ensures match ReportDevice(old(devices), user, id, cursor, now)
        case Registered(after) => denial.None? && devices == after
        case Denied(why) => denial == Some(why) && devices == old(devices)
    {
      if id in devices && devices[id].owner != user {
        return Some(BelongsToAnother);
      }
      if id in devices && devices[id].revokedAt.Some? {
        return Some(Revoked);
      }
      if id !in devices {
        var kept := map d | d in devices && !(devices[d].owner == user && devices[d].revokedAt.None?
                                              && devices[d].lastSeenAt <= now - ACTIVE_WINDOW_MS) :: devices[d];
        assert kept == DropStale(devices, user, now);
        if |Active(kept, user, now)| >= PRO_DEVICE_LIMIT {
          return Some(LimitReached);
        }
        devices := kept[id := DeviceRow(user, cursor.GetOr(0), now, None)];
      } else {
        devices := devices[id := devices[id].(lastSeenAt := now,
                             lastPulledSeq := if cursor.Some? then cursor.value else devices[id].lastPulledSeq)];
      }
      return None;
    }

    method Revoke(user: Id, id: Id, current: Id, now: Time) returns (denial: Option<Denial>)
      modifies `devices
      ensures match RevokeDevice(old(devices), user, id, current, now)
        case Registered(after) => denial.None? && devices == after
        case Denied(why) => denial == Some(why) && devices == old(devices)
    {
      if id == current {
        return Some(CurrentDevice);
      }
      if id in devices && devices[id].owner == user && devices[id].revokedAt.None? {
        devices := devices[id := devices[id].(revokedAt := Some(now))];
      }
      return None;
    }

    /** The lowest confirmed sequence among the active devices. */
    method MinPulled(active: set<Id>) returns (low: Option<nat>)
      requires forall d :: d in active ==> d in devices
      ensures IsBoundary(devices, active, low)
    {
      low := None;
      var rest := active;
      while rest != {}
        invariant rest <= active
        invariant low.None? <==> rest == active
        invariant low.Some? ==> (forall d :: d in active - rest ==> low.value <= devices[d].lastPulledSeq)
                                && exists d :: d in active - rest && devices[d].lastPulledSeq == low.value
        decreases |rest|
      {
        var d :| d in rest;
        ghost var seen := active - rest;
        assert active - (rest - {d}) == seen + {d};
        if low.None? || devices[d].lastPulledSeq < low.value {
          low := Some(devices[d].lastPulledSeq);
        }
        rest := rest - {d};
      }
    }

    /** Drops stale devices, then the card tombstones and the topic tombstones below the boundary. */
    method PurgeSyncedTombstones(user: Id, now: Time)
      requires Valid()
      modifies this
      ensures Valid() && View() == Purge(old(View()), user, now)
    {
      var active := Active(devices, user, now);
      var minPulled := MinPulled(active);
      PurgeByStatements(View(), user, now, minPulled);
      devices := DropStale(devices, user, now);
      DeleteRows(Below(rows, user, Cards, minPulled, now));
      DeleteRows(Below(rows, user, Topics, minPulled, now));
    }
  }

  /** The lowest keys of `all` are in `p`, in order; the others are in `rest`. */
  ghost predicate Fetched(rows: map<Key, Row>, all: set<Key>, p: seq<Key>, rest: set<Key>) {
    rest <= all && InjectiveOn(rows, all) && BySeq(rows, all) == p + BySeq(rows, rest)
  }

  lemma LowestInRest(rows: map<Key, Row>, all: set<Key>, p: seq<Key>, rest: set<Key>)
    requires Fetched(rows, all, p, rest) && rest != {}
    ensures exists k :: k in rest && forall j :: j in rest ==> rows[k].serverSeq <= rows[j].serverSeq
  {
    HasLowest(rows, rest);
  }

  lemma BySeqFirst(rows: map<Key, Row>, rest: set<Key>, k: Key)
    requires InjectiveOn(rows, rest) && k in rest && forall j :: j in rest ==> rows[k].serverSeq <= rows[j].serverSeq
    ensures BySeq(rows, rest) == [k] + BySeq(rows, rest - {k})
  {
    assert k == Lowest(rows, rest);
  }

  lemma MoveOver(p: seq<Key>, k: Key, q: seq<Key>)
    ensures p + ([k] + q) == (p + [k]) + q
  {
  }

  lemma FetchNext(rows: map<Key, Row>, all: set<Key>, p: seq<Key>, rest: set<Key>, k: Key)
    requires Fetched(rows, all, p, rest) && k in rest && forall j :: j in rest ==> rows[k].serverSeq <= rows[j].serverSeq
    ensures Fetched(rows, all, p + [k], rest - {k})
  {
    BySeqFirst(rows, rest, k);
    MoveOver(p, k, BySeq(rows, rest - {k}));
  }

  /** Ordering and limiting a query's rows. */
  method TakeLowest(rows: map<Key, Row>, all: set<Key>, take: nat) returns (p: seq<Key>)
    requires InjectiveOn(rows, all)
    ensures p == Take(BySeq(rows, all), take)
  {
    p := [];
    var rest := all;
    while rest != {} && |p| < take
      invariant Fetched(rows, all, p, rest) && |p| <= take
      decreases |rest|
    {
      LowestInRest(rows, all, p, rest);
      var k :| k in rest && forall j :: j in rest ==> rows[k].serverSeq <= rows[j].serverSeq;
      FetchNext(rows, all, p, rest, k);
      p := p + [k];
      rest := rest - {k};
    }
    FetchedEnough(rows, all, p, rest, take);
  }

  lemma FetchedEnough(rows: map<Key, Row>, all: set<Key>, p: seq<Key>, rest: set<Key>, take: nat)
    requires Fetched(rows, all, p, rest) && |p| <= take && (rest == {} || |p| == take)
    ensures p == Take(BySeq(rows, all), take)
  {
    assert rest == {} ==> BySeq(rows, rest) == [];
  }

  /** A page in plain words: exactly the user's rows above the cursor up to the watermark, each once and as
      stored, topics first, as many as the limit allows; `more` tells whether any are left. */
  ghost predicate IsWholePage(s: Server, user: Id, since: nat, limit: nat, page: Page) {
    && (forall r :: r in page.records <==>
          r.key in s.rows && s.rows[r.key] == r.row && r.row.owner == user && since < r.row.serverSeq <= page.watermark)
    && (forall i, j :: 0 <= i < j < |page.records| ==> page.records[i].key != page.records[j].key)
    && (forall i, j :: 0 <= i < j < |page.records| && page.records[i].key.table.Cards? ==> page.records[j].key.table.Cards?)
    && |page.records| == Min(limit, |Above(s, user, since)|)
    && (page.more <==> |Above(s, user, since)| > limit)
  }

  /** The assembled page is the specified one. */
  lemma Assembled(s: Server, user: Id, since: nat, limit: nat, merged: seq<Key>, kept: seq<Key>, page: Page)
    requires SeqsSound(s, user) && kept == PageKeys(s, user, since, limit) && Sorted(s.rows, kept)
    requires merged == Merged(s, user, since, limit)
    requires page == PageOf(s.rows, since, kept, |merged| > limit)
    ensures page == PullPage(s, user, since, limit) && IsWholePage(s, user, since, limit, page)
  {
    PageIsComplete(s, user, since, limit);
    TopicsFirstPermutes(s.rows, kept);
  }

  /** The merged and cut queries are the keys of the specified page. */
  lemma MergedIs(s: Server, user: Id, since: nat, limit: nat, topics: seq<Key>, cards: seq<Key>, merged: seq<Key>, kept: seq<Key>)
    requires SeqsSound(s, user)
    requires topics == Query(s, user, Topics, since, limit + 1) && cards == Query(s, user, Cards, since, limit + 1)
    requires (forall k :: k in topics + cards ==> k in s.rows) && merged == SortKeys(s.rows, topics + cards)
    requires kept == if |merged| > limit then merged[..limit] else merged
    ensures merged == Merged(s, user, since, limit) && kept == PageKeys(s, user, since, limit)
    ensures Sorted(s.rows, kept)
  {
    assert merged == Merged(s, user, since, limit);
    TakeSorted(s.rows, merged, limit, kept);
  }

  lemma TakeSorted(rows: map<Key, Row>, merged: seq<Key>, limit: nat, kept: seq<Key>)
    requires Sorted(rows, merged) && kept == if |merged| > limit then merged[..limit] else merged
    ensures kept == Take(merged, limit) && Sorted(rows, kept)
  {
  }

  lemma OfTableFirst(x: Key, rest: seq<Key>, table: Table)
    ensures OfTable([x] + rest, table) == (if x.table == table then [x] else []) + OfTable(rest, table)
  {
    assert ([x] + rest)[1..] == rest;
  }

  lemma {:induction false} OfTableAppend(p: seq<Key>, k: Key, table: Table)
    ensures OfTable(p + [k], table) == OfTable(p, table) + (if k.table == table then [k] else [])
    decreases |p|
  {
    if p == [] {
      OfTableFirst(k, [], table);
      assert p + [k] == [k] + [];
    } else {
      OfTableAppend(p[1..], k, table);
      OfTableFirst(p[0], p[1..] + [k], table);
      assert p + [k] == [p[0]] + (p[1..] + [k]);
    }
  }

  /** The user's tombstones of one table at or below the boundary; without one, those past the window. */
  function Below(rows: map<Key, Row>, user: Id, table: Table, minPulled: Option<nat>, now: Time): set<Key> {
    set k | k in rows && k.table == table && rows[k].owner == user && rows[k].deletedAt.Some?
      && if minPulled.Some? then rows[k].serverSeq <= minPulled.value else rows[k].deletedAt.value <= now - ACTIVE_WINDOW_MS
  }

  /** The boundary is the lowest confirmed sequence of the active devices. */
  ghost predicate IsBoundary(devices: map<Id, DeviceRow>, active: set<Id>, low: Option<nat>) {
    && (low.None? <==> active == {})
    && (low.Some? ==>
          && (forall d :: d in active ==> d in devices && low.value <= devices[d].lastPulledSeq)
          && exists d :: d in active && d in devices && devices[d].lastPulledSeq == low.value)
  }

  /** Below the boundary is confirmed by every active device. */
  lemma BelowIsPurgeable(s: Server, user: Id, now: Time, low: Option<nat>, k: Key)
    requires IsBoundary(s.devices, Active(s.devices, user, now), low)
    ensures Purgeable(s, user, now, k) <==> k in Below(s.rows, user, k.table, low, now)
  {
    if low.Some? {
      var d :| d in Active(s.devices, user, now) && s.devices[d].lastPulledSeq == low.value;
    }
  }

  /** Deleting the cards and then the topics below the boundary is one purge. */
  lemma PurgeInTwo(s: Server, user: Id, now: Time, low: Option<nat>)
    requires BodiesFit(s.rows) && IsBoundary(s.devices, Active(s.devices, user, now), low)
    ensures var left := RemoveRows(s.rows, Below(s.rows, user, Cards, low, now));
      RemoveRows(left, Below(left, user, Topics, low, now)) == RemoveRows(s.rows, PurgeKeys(s, user, now))
  {
    var cards, topics := Below(s.rows, user, Cards, low, now), Below(s.rows, user, Topics, low, now);
    var left := RemoveRows(s.rows, cards);
    assert Below(left, user, Topics, low, now) == topics;
    forall k ensures k in PurgeKeys(s, user, now) <==> k in cards || k in topics {
      BelowIsPurgeable(s, user, now, low, k);
    }
    TwoRemovals(s.rows, cards, topics, PurgeKeys(s, user, now));
  }

  /** The statements of the purge, one after another. */
  lemma PurgeByStatements(s: Server, user: Id, now: Time, low: Option<nat>)
    requires Integrity(s.rows) && IsBoundary(s.devices, Active(s.devices, user, now), low)
    ensures var left := RemoveRows(s.rows, Below(s.rows, user, Cards, low, now));
      var rows := RemoveRows(left, Below(left, user, Topics, low, now));
      Purge(s, user, now) == s.(rows := rows, devices := DropStale(s.devices, user, now)) && Integrity(rows)
  {
    PurgeInTwo(s, user, now, low);
    PurgeKeepsIntegrity(s, user, now);
  }

  lemma TwoRemovals(rows: map<Key, Row>, cards: set<Key>, topics: set<Key>, both: set<Key>)
    requires both == cards + topics && (forall k :: k in cards ==> k.table.Cards?)
    ensures RemoveRows(RemoveRows(rows, cards), topics) == RemoveRows(rows, both)
  {
  }

  method FilterKind(ms: seq<Mutation>, kind: Operation) returns (r: seq<Mutation>)
    ensures r == OnlyKind(ms, kind)
  {
    r := [];
    for i := 0 to |ms|
      invariant r == OnlyKind(ms[..i], kind)
    {
      assert ms[..i + 1][..i] == ms[..i];
      if ms[i].operation == kind {
        r := r + [ms[i]];
      }
    }
    assert ms[..|ms|] == ms;
  }
}
