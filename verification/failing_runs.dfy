// Two runs, from a new account on, that end where a device's delete should have held but does not: a
// cancelled delete whose record comes back, and a late request that revives a purged record.

module FailingRuns {
  import opened SyncTypes
  import opened LastWriteWins
  import opened ServerApply
  import opened Validation
  import opened PushBatch
  import opened Devices
  import opened Paging
  import opened Outbox
  import opened ClientPull
  import opened PullDelta
  import opened SyncSystem
  import opened Coalescing
  import opened AdmittedBatch
  import Titles
  import L = NoLostEdit
  import R = NoResurrection

  // ----- runs that meet every hypothesis -----

  /** A run from `start` to `s`, each step of which meets the hypotheses of both run theorems. */
  ghost predicate RunTo(start: System, steps: seq<Step>, s: System) {
    Runs(start, steps) && L.MildRun(start, steps) && R.StrictRun(start, steps) && Run(start, steps) == s
  }

  ghost predicate Reached(start: System, s: System) {
    exists steps :: RunTo(start, steps, s)
  }

  lemma Prepend(start: System, step: Step, rest: seq<Step>, s: System)
    requires Enabled(start, step) && L.Mild(start, step) && R.Strict(start, step) && RunTo(Do(start, step), rest, s)
    ensures RunTo(start, [step] + rest, s)
  {
    assert ([step] + rest)[1..] == rest;
  }

  lemma {:induction false} OneMore(start: System, steps: seq<Step>, s: System, step: Step)
    requires RunTo(start, steps, s) && Enabled(s, step) && L.Mild(s, step) && R.Strict(s, step)
    ensures RunTo(start, steps + [step], Do(s, step))
    decreases |steps|
  {
    if steps == [] {
      assert RunTo(Do(s, step), [], Do(s, step));
      Prepend(start, step, [], Do(s, step));
      assert [step] + [] == [] + [step];
    } else {
      OneMore(Do(start, steps[0]), steps[1..], s, step);
      Prepend(start, steps[0], steps[1..] + [step], Do(s, step));
      assert [steps[0]] + (steps[1..] + [step]) == steps + [step];
    }
  }

  lemma Reach(start: System, s: System, step: Step)
    requires Reached(start, s) && Enabled(s, step) && L.Mild(s, step) && R.Strict(s, step)
    ensures Reached(start, Do(s, step))
  {
    var steps :| RunTo(start, steps, s);
    OneMore(start, steps, s, step);
  }

  lemma ReachStart(start: System)
    ensures Reached(start, start)
  {
    assert RunTo(start, [], start);
  }

  // ----- one device, one topic -----

  /** All that matters while one device works on one topic. */
  datatype Shot = Shot(dev: Device, row: Option<Row>, seqNo: nat, pulled: nat, now: Time,
    ops: set<Id>, made: set<Id>, sent: set<(Id, Mutation)>, purged: map<Key, Time>)

  /** A new account, a device and a topic nobody has seen. */
  ghost predicate Scene(start: System, d: Id, k: Key) {
    && Start(start) && d != "" && d !in start.server.devices && start.user in start.server.seqs
    && k.table.Topics? && k !in start.server.rows
    && Integrity(start.server.rows)
  }

  ghost predicate Pictured(start: System, s: System, d: Id, k: Key, x: Shot) {
    && s.user == start.user && s.check == start.check && s.clock == x.now >= start.clock && s.devices == map[d := x.dev]
    && s.server.rows == (if x.row.None? then start.server.rows else start.server.rows[k := x.row.value])
    && s.user in s.server.seqs && SeqOf(s.server, s.user) == x.seqNo
    && (forall o :: (s.user, o) in s.server.ops ==> o in x.ops)
    && s.past.changes.Keys == x.made && s.past.sent == x.sent && s.past.purged == x.purged
    && (forall e :: e in s.server.devices && s.server.devices[e].owner == s.user ==> e == d)
    && d in s.server.devices && var row := s.server.devices[d];
       row.owner == s.user && row.revokedAt.None? && row.lastPulledSeq == x.pulled && row.lastSeenAt >= start.clock
  }

  lemma Joins(start: System, d: Id, k: Key)
    requires Scene(start, d, k)
    ensures Enabled(start, Join(d))
    ensures Pictured(start, Do(start, Join(d)), d, k,
      Shot(EMPTY_DEVICE, None, SeqOf(start.server, start.user), 0, start.clock, {}, {}, {}, map[]))
  {
    assert Active(DropStale(start.server.devices, start.user, start.clock), start.user, start.clock) == {};
  }

  lemma Ticks(start: System, s: System, d: Id, k: Key, x: Shot, now: Time) returns (s1: System)
    requires Reached(start, s) && Pictured(start, s, d, k, x) && now >= x.now
    ensures Reached(start, s1) && Pictured(start, s1, d, k, x.(now := now))
  {
    Reach(start, s, Tick(now));
    s1 := Do(s, Tick(now));
  }

  /** A local change as the picture shows it. */
  lemma ChangePictured(start: System, s: System, s1: System, d: Id, k: Key, x: Shot, dev: Device, o: Id)
    requires Pictured(start, s, d, k, x)
    requires s1 == s.(devices := s.devices[d := dev], past := s1.past)
    requires s1.past.changes.Keys == s.past.changes.Keys + {o} && s1.past.sent == s.past.sent && s1.past.purged == s.past.purged
    ensures Pictured(start, s1, d, k, x.(dev := dev, made := x.made + {o}))
  {
  }

  lemma EditPictured(start: System, s: System, d: Id, k: Key, x: Shot, body: Body, o: Id)
    requires Pictured(start, s, d, k, x) && o !in x.made
    ensures Pictured(start, DoEdit(s, d, k, body, x.now, o), d, k,
      x.(dev := x.dev.(rows := x.dev.rows[k := Local(body, x.now)],
                       queue := Enqueue(x.dev.queue, InFlight(x.dev.phase), k, Upsert, o, x.now)),
         made := x.made + {o}))
  {
    var s1 := DoEdit(s, d, k, body, x.now, o);
    ChangePictured(start, s, s1, d, k, x, s1.devices[d], o);
  }

  lemma Edits(start: System, s: System, d: Id, k: Key, x: Shot, body: Body, o: Id) returns (s1: System)
    requires Reached(start, s) && Pictured(start, s, d, k, x)
    requires o !in x.made && body.TopicBody? && k.table.Topics? && !IsApplying(x.dev)
    ensures Reached(start, s1) && s1 == DoEdit(s, d, k, body, x.now, o)
    ensures Pictured(start, s1, d, k,
      x.(dev := x.dev.(rows := x.dev.rows[k := Local(body, x.now)],
                       queue := Enqueue(x.dev.queue, InFlight(x.dev.phase), k, Upsert, o, x.now)),
         made := x.made + {o}))
  {
    Reach(start, s, Edit(d, k, body, x.now, o));
    s1 := DoEdit(s, d, k, body, x.now, o);
    EditPictured(start, s, d, k, x, body, o);
  }

  lemma RemovePictured(start: System, s: System, d: Id, k: Key, x: Shot, o: Id)
    requires Pictured(start, s, d, k, x) && o !in x.made
    ensures Pictured(start, DoRemove(s, d, k, x.now, o), d, k,
      x.(dev := x.dev.(rows := x.dev.rows - {k}, queue := Enqueue(x.dev.queue, InFlight(x.dev.phase), k, Delete, o, x.now)),
         made := x.made + {o}))
  {
    var s1 := DoRemove(s, d, k, x.now, o);
    ChangePictured(start, s, s1, d, k, x, s1.devices[d], o);
  }

  lemma RemoveNoted(s: System, d: Id, k: Key, at: Time, o: Id)
    requires d in s.devices
    ensures var s1 := DoRemove(s, d, k, at, o);
      && (d, k) in s1.past.lastOp && s1.past.lastOp[(d, k)] == o
      && (k !in s1.devices[d].queue ==>
            o in s1.past.cancelled && s1.past.cancelled[o] == EverSent(s, k) && o in s1.past.changes && s1.past.changes[o].at == at)
  {
  }

  lemma Removes(start: System, s: System, d: Id, k: Key, x: Shot, o: Id) returns (s1: System)
    requires Reached(start, s) && Pictured(start, s, d, k, x) && o !in x.made
    ensures Reached(start, s1) && Pictured(start, s1, d, k,
      x.(dev := x.dev.(rows := x.dev.rows - {k}, queue := Enqueue(x.dev.queue, InFlight(x.dev.phase), k, Delete, o, x.now)),
         made := x.made + {o}))
    ensures (d, k) in s1.past.lastOp && s1.past.lastOp[(d, k)] == o
    ensures k !in s1.devices[d].queue ==>
      o in s1.past.cancelled && s1.past.cancelled[o] == EverSent(s, k) && o in s1.past.changes && s1.past.changes[o].at == x.now
  {
    Reach(start, s, Remove(d, k, x.now, o));
    s1 := DoRemove(s, d, k, x.now, o);
    RemovePictured(start, s, d, k, x, o);
    RemoveNoted(s, d, k, x.now, o);
  }

  lemma Rests(start: System, s: System, d: Id, k: Key, x: Shot) returns (s1: System)
    requires Reached(start, s) && Pictured(start, s, d, k, x) && x.dev.phase.Pushing?
    ensures Reached(start, s1) && Pictured(start, s1, d, k, x.(dev := x.dev.(phase := Resting)))
  {
    Reach(start, s, PushFails(d));
    s1 := Do(s, PushFails(d));
  }

  // ----- pushing the one operation -----

  lemma BuildOne(item: Item, rows: map<Key, Local>, now: Time, size: Mutation -> nat, m: Mutation)
    requires item.nextRetryAt <= now && MutationFor(item, rows) == Some(m)
    ensures Build([item], rows, now, size) == Batch([m], [item], 256 + size(m) + 1, {})
  {
    BuildByItem([item], rows, now, size, EMPTY_BATCH);
    assert [item][1..] == [];
    assert WithItem(item, rows, now, size, EMPTY_BATCH) == Batch([m], [item], 256 + size(m) + 1, {}) by {
      assert EMPTY_BATCH.mutations + [m] == [m];
      assert EMPTY_BATCH.items + [item] == [item];
    }
  }

  lemma OrderedOne(m: Mutation)
    ensures Ordered([m]) == [m]
  {
    assert [m][..0] == [];
    assert OnlyKind([m], Upsert) + OnlyKind([m], Delete) == [m];
  }

  lemma AdmitsOne(m: Mutation, now: Time, check: Check)
    requires WithinSkew(m, now) && check(m).None?
    ensures Admitted([m], now, check) == [m] && MalformedOf(ClampAll([m], now), check) == []
  {
    NothingToClamp([m], now);
    AllPass([m], check);
    OrderedOne(m);
  }

  lemma OrderOfOne(q: Queue, k: Key, item: Item)
    requires q == map[k := item]
    ensures IsQueueOrder(q, [k]) && ItemsOf(q, [k]) == [item]
  {
  }

  /** The state once `m` is on its way. */
  ghost function Pushed(s: System, d: Id, item: Item, m: Mutation): System
    requires d in s.devices
  {
    WithDevice(s, d, s.devices[d].(phase := Pushing([item], [m], [m], 0, EMPTY_ACK)))
    .(past := s.past.(sent := s.past.sent + {(d, m)}))
  }

  lemma PushOf(s: System, d: Id, k: Key, item: Item, m: Mutation, size: Mutation -> nat, b: Batch)
    requires d in s.devices && s.devices[d].queue == map[k := item] && IsQueueOrder(s.devices[d].queue, [k])
    requires Build(ItemsOf(s.devices[d].queue, [k]), s.devices[d].rows, s.clock, size) == b
    requires b.mutations == [m] && b.items == [item] && b.dropped == {}
    requires NewRequest([item], [m], s.clock, s.check) == Pushing([item], [m], [m], 0, EMPTY_ACK)
    ensures DoStartPush(s, d, [k], size) == Pushed(s, d, item, m)
  {
    assert s.devices[d].queue - b.dropped == s.devices[d].queue;
    assert (set n | n in b.mutations :: (d, n)) == {(d, m)};
  }

  /** The one queued operation goes out. */
  lemma Pushes(s: System, d: Id, k: Key, item: Item, m: Mutation, size: Mutation -> nat)
    requires d in s.devices && s.devices[d].phase.Resting? && s.devices[d].queue == map[k := item]
    requires item.nextRetryAt <= s.clock && MutationFor(item, s.devices[d].rows) == Some(m)
    requires WithinSkew(m, s.clock) && s.check(m).None?
    ensures Enabled(s, StartPush(d, [k], size)) && Do(s, StartPush(d, [k], size)) == Pushed(s, d, item, m)
  {
    OrderOfOne(s.devices[d].queue, k, item);
    BuildOne(item, s.devices[d].rows, s.clock, size, m);
    AdmitsOne(m, s.clock, s.check);
    PushOf(s, d, k, item, m, size, Batch([m], [item], 256 + size(m) + 1, {}));
  }

  lemma ReachPushed(start: System, s: System, d: Id, k: Key, item: Item, m: Mutation, size: Mutation -> nat)
    requires Reached(start, s) && d in s.devices && s.devices[d].phase.Resting? && s.devices[d].queue == map[k := item]
    requires item.nextRetryAt <= s.clock && MutationFor(item, s.devices[d].rows) == Some(m)
    requires WithinSkew(m, s.clock) && s.check(m).None?
    ensures Reached(start, Pushed(s, d, item, m))
  {
    Pushes(s, d, k, item, m, size);
    Reach(start, s, StartPush(d, [k], size));
  }

  /** The picture once `m` is on its way, and once it has been served. */
  function OnWire(x: Shot, d: Id, item: Item, m: Mutation): Shot {
    x.(dev := x.dev.(phase := Pushing([item], [m], [m], 0, EMPTY_ACK)), sent := x.sent + {(d, m)})
  }

  function Stored(x: Shot, item: Item, m: Mutation, row: Row, ack: Ack): Shot {
    x.(dev := x.dev.(phase := Pushing([item], [m], [m], 1, ack)), row := Some(row), seqNo := x.seqNo + 1, ops := x.ops + {m.opId})
  }

  lemma PushedShows(start: System, s: System, d: Id, k: Key, x: Shot, item: Item, m: Mutation)
    requires Pictured(start, s, d, k, x)
    ensures Pictured(start, Pushed(s, d, item, m), d, k, OnWire(x, d, item, m))
  {
  }

  // ----- serving it -----

  /** The server will store `row` and log the operation. */
  ghost predicate WillStore(start: System, s: System, d: Id, k: Key, seqNo: nat, m: Mutation, row: Row) {
    var server := ApplyOp(s.server, s.user, d, m, false, Env(s.clock, NoFault)).0;
    && server.rows == start.server.rows[k := row]
    && server.seqs == s.server.seqs[s.user := seqNo + 1] && server.devices == s.server.devices
    && server.ops == s.server.ops + {(s.user, m.opId)}
  }

  /** A topic nobody else has a title for is stored as pushed. */
  lemma StoresTopic(start: System, s: System, d: Id, k: Key, x: Shot, m: Mutation, body: Body)
    requires Scene(start, d, k) && Pictured(start, s, d, k, x) && x.row.None? && m.opId !in x.ops && body.TopicBody?
    requires m == Mutation(m.opId, k, Upsert, m.updatedAt, Some(Record(k.id, body, m.updatedAt, None)))
    ensures WillStore(start, s, d, k, x.seqNo, m, Row(s.user, StoredBody(body), m.updatedAt, None, x.seqNo + 1))
  {
    forall j, title ensures !LiveTitle(s.server.rows, s.user, title, j) {
    }
    Titles.TopicUpsertCommitsIff(s.server, s.user, d, m, x.now);
    assert Retitled(UpsertRow(s.server, s.user, k, m.payload.value), body.title)
        == Row(s.user, StoredBody(body), m.updatedAt, None, 0);
  }

  /** A delete no older than the stored row makes it a tombstone. */
  lemma StoresTombstone(start: System, s: System, d: Id, k: Key, x: Shot, m: Mutation)
    requires Pictured(start, s, d, k, x) && x.row.Some? && m.opId !in x.ops
    requires x.row.value.owner == s.user && x.row.value.updatedAt <= m.updatedAt && m.updatedAt != 0
    requires m.key == k && m.operation.Delete?
    ensures WillStore(start, s, d, k, x.seqNo, m,
      x.row.value.(deletedAt := Some(m.updatedAt), updatedAt := m.updatedAt, serverSeq := x.seqNo + 1))
  {
  }

  /** The server stored a new version of the topic and logged the operation. */
  lemma ServedShows(start: System, s: System, d: Id, k: Key, x: Shot, m: Mutation, server: Server, row: Row)
    requires Pictured(start, s, d, k, x)
    requires server.rows == start.server.rows[k := row]
    requires server.seqs == s.server.seqs[s.user := x.seqNo + 1] && server.devices == s.server.devices
    requires server.ops == s.server.ops + {(s.user, m.opId)}
    ensures Pictured(start, Served(s, server, m), d, k, x.(row := Some(row), seqNo := x.seqNo + 1, ops := x.ops + {m.opId}))
  {
  }

  lemma AnsweredShows(start: System, s: System, d: Id, k: Key, x: Shot, ack: Ack)
    requires Pictured(start, s, d, k, x) && x.dev.phase.Pushing?
    ensures Pictured(start, Answered(s, d, ack), d, k, x.(dev := x.dev.(phase := x.dev.phase.(done := x.dev.phase.done + 1, ack := ack))))
  {
  }

  /** The request is served, and the device learns nothing of it yet. */
  lemma Serves(start: System, s: System, d: Id, k: Key, x: Shot, item: Item, m: Mutation, row: Row) returns (ack: Ack)
    requires Pictured(start, s, d, k, x) && x.dev.phase == Pushing([item], [m], [m], 0, EMPTY_ACK)
    requires WillStore(start, s, d, k, x.seqNo, m, row)
    ensures Enabled(s, ServeNext(d, false, NoFault))
    ensures Pictured(start, DoServeNext(s, d, false, NoFault), d, k,
      x.(dev := x.dev.(phase := Pushing([item], [m], [m], 1, ack)), row := Some(row), seqNo := x.seqNo + 1, ops := x.ops + {m.opId}))
  {
    var (server, verdict) := ApplyOp(s.server, s.user, d, m, false, Env(x.now, NoFault));
    ack := Noted(EMPTY_ACK, m.opId, verdict);
    ServedShows(start, s, d, k, x, m, server, row);
    AnsweredShows(start, Served(s, server, m), d, k, x.(row := Some(row), seqNo := x.seqNo + 1, ops := x.ops + {m.opId}), ack);
  }

  // ----- pulling the tombstone and purging it -----

  lemma OneRow(start: System, s: System, d: Id, k: Key, x: Shot)
    requires Scene(start, d, k) && Pictured(start, s, d, k, x)
    requires x.row.Some? && x.row.value.owner == s.user && 0 < x.row.value.serverSeq == x.seqNo
    ensures SeqsSound(s.server, s.user) && Above(s.server, s.user, 0) == {k}
    ensures k in s.server.rows && s.server.rows[k] == x.row.value
    ensures forall j :: j in s.server.rows && s.server.rows[j].owner == s.user ==> j == k
  {
  }

  /** A complete page of a user with one row holds that row. */
  lemma PageOfOne(rows: map<Key, Row>, user: Id, k: Key, page: Page, top: nat)
    requires k in rows && rows[k].owner == user && rows[k].serverSeq == top
    requires forall j :: j in rows && rows[j].owner == user ==> j == k
    requires |page.records| == 1 && page.watermark <= top && top <= page.watermark
    requires forall r :: r in page.records ==> r.key in rows && rows[r.key] == r.row && r.row.owner == user
    ensures page.records == [PageRow(k, rows[k])] && page.watermark == top
  {
    assert page.records[0] in page.records;
  }

  /** The user's one row is the whole page. */
  lemma PullsOne(start: System, s: System, d: Id, k: Key, x: Shot)
    requires Scene(start, d, k) && Pictured(start, s, d, k, x)
    requires x.row.Some? && x.row.value.owner == s.user && 0 < x.row.value.serverSeq == x.seqNo
    ensures var page := PullPage(s.server, s.user, 0, 1);
      page.records == [PageRow(k, x.row.value)] && page.watermark == x.seqNo
  {
    OneRow(start, s, d, k, x);
    PageIsComplete(s.server, s.user, 0, 1);
    assert k in Above(s.server, s.user, 0);
    PageOfOne(s.server.rows, s.user, k, PullPage(s.server, s.user, 0, 1), x.seqNo);
  }

  /** The state once a page is in hand. */
  function Begun(s: System, d: Id, page: Page, since: nat): System
    requires d in s.devices
  {
    WithDevice(s, d, s.devices[d].(phase := Pulling(page, since, SeqOf(s.server, s.user), 0, None)))
  }

  lemma Pulls(s: System, d: Id, since: nat, limit: nat, page: Page)
    requires d in s.devices && s.devices[d].phase.Resting? && since <= s.devices[d].cursor && limit >= 1
    requires SeqsSound(s.server, s.user) && page == PullPage(s.server, s.user, since, limit)
    ensures Enabled(s, StartPull(d, since, limit)) && Do(s, StartPull(d, since, limit)) == Begun(s, d, page, since)
  {
  }

  lemma BegunShows(start: System, s: System, d: Id, k: Key, x: Shot, page: Page, since: nat)
    requires Pictured(start, s, d, k, x)
    ensures Pictured(start, Begun(s, d, page, since), d, k, x.(dev := x.dev.(phase := Pulling(page, since, x.seqNo, 0, None))))
  {
  }

  lemma Begins(start: System, s: System, d: Id, k: Key, x: Shot) returns (s1: System)
    requires Reached(start, s) && Pictured(start, s, d, k, x)
    requires x.dev.phase.Pulling? && x.dev.phase.known.None?
    ensures Reached(start, s1) && Pictured(start, s1, d, k, 
      x.(dev := x.dev.(phase := x.dev.phase.(known := Some(Snapshot(x.dev.rows, x.dev.phase.page.records))))))
  {
    Reach(start, s, BeginDelta(d));
    s1 := Do(s, BeginDelta(d));
  }

  /** A tombstone changes nothing on a device that has no rows. */
  lemma AppliesTombstone(start: System, s: System, d: Id, k: Key, x: Shot) returns (s1: System)
    requires Reached(start, s) && Pictured(start, s, d, k, x)
    requires IsApplying(x.dev) && x.dev.rows == map[] && x.dev.phase.known == Some(map[])
    requires x.dev.phase.next < |x.dev.phase.page.records| && !Live(x.dev.phase.page.records[x.dev.phase.next].row)
    ensures Reached(start, s1) && Pictured(start, s1, d, k, x.(dev := x.dev.(phase := x.dev.phase.(next := x.dev.phase.next + 1))))
  {
    assert s.devices[d].phase.page.records == x.dev.phase.page.records;
    Reach(start, s, ApplyNext(d, true));
    s1 := Do(s, ApplyNext(d, true));
  }

  lemma Finishes(start: System, s: System, d: Id, k: Key, x: Shot) returns (s1: System)
    requires Reached(start, s) && Pictured(start, s, d, k, x)
    requires IsApplying(x.dev) && x.dev.phase.next == |x.dev.phase.page.records|
    ensures Reached(start, s1) && Pictured(start, s1, d, k, 
      x.(dev := x.dev.(cursor := AdvanceCursor(x.dev.cursor, x.dev.phase.page.watermark), phase := Resting)))
  {
    Reach(start, s, FinishPull(d));
    s1 := Do(s, FinishPull(d));
  }

  lemma Reports(start: System, s: System, d: Id, k: Key, x: Shot) returns (s1: System)
    requires Reached(start, s) && Pictured(start, s, d, k, x) && x.dev.phase.Pulling?
    ensures Reached(start, s1) && Pictured(start, s1, d, k, x.(pulled := x.dev.phase.since))
  {
    Reach(start, s, ReportIn(d));
    s1 := Do(s, ReportIn(d));
  }

  lemma OnlyActive(start: System, s: System, d: Id, k: Key, x: Shot)
    requires Pictured(start, s, d, k, x) && x.now <= start.clock + 1
    ensures Active(s.server.devices, s.user, s.clock) == {d}
  {
  }

  lemma PurgesIt(start: System, s: System, d: Id, k: Key, x: Shot)
    requires Scene(start, d, k) && Pictured(start, s, d, k, x) && x.now <= start.clock + 1
    requires x.row.Some? && x.row.value.owner == s.user && !Live(x.row.value) && x.row.value.serverSeq <= x.pulled
    ensures Active(s.server.devices, s.user, s.clock) == {d}
    ensures PurgeKeys(s.server, s.user, s.clock) == {k}
  {
    OnlyActive(start, s, d, k, x);
  }

  /** Nothing else hangs on a topic that was not there before. */
  lemma NothingFalls(rows: map<Key, Row>, k: Key, row: Row)
    requires k !in rows && ForeignKeysHold(rows) && k.table.Topics?
    ensures RemoveRows(rows[k := row], {k}) == rows
  {
    forall j | j in rows ensures !Falls(rows[k := row], {k}, j) {
      if rows[j].body.CardBody? { assert Key(Topics, rows[j].body.topicId) in rows; }
    }
  }

  lemma RaiseOne(rows: map<Key, Row>, k: Key, row: Row)
    requires rows == map[k := row]
    ensures Raise(map[], rows) == map[k := row.updatedAt]
  {
  }

  lemma PurgedOne(s: System, k: Key, row: Row, rows: map<Key, Row>)
    requires k in s.server.rows && s.server.rows[k] == row && PurgeKeys(s.server, s.user, s.clock) == {k}
    requires RemoveRows(s.server.rows, {k}) == rows && s.past.purged == map[]
    ensures var s1 := Do(s, PurgeTombstones);
      s1.past.purged == map[k := row.updatedAt] && s1.server.rows == rows
  {
    var gone := PurgedNow(s.server, s.user, s.clock);
    assert gone == map[k := row];
    RaiseOne(gone, k, row);
  }

  lemma PurgedShows(start: System, s: System, d: Id, k: Key, x: Shot, row: Row)
    requires Pictured(start, s, d, k, x) && x.purged == map[] && x.row == Some(row)
    requires Active(s.server.devices, s.user, s.clock) == {d} && PurgeKeys(s.server, s.user, s.clock) == {k}
    requires RemoveRows(s.server.rows, {k}) == start.server.rows
    ensures Pictured(start, Do(s, PurgeTombstones), d, k, x.(row := None, purged := map[k := row.updatedAt]))
  {
    PurgedOne(s, k, row, start.server.rows);
  }

  /** The device has confirmed the tombstone, so it goes. */
  lemma Purges(start: System, s: System, d: Id, k: Key, x: Shot)
    requires Scene(start, d, k) && Pictured(start, s, d, k, x) && x.now <= start.clock + 1 && x.purged == map[]
    requires x.row.Some? && x.row.value.owner == s.user && !Live(x.row.value) && x.row.value.serverSeq <= x.pulled
    ensures R.Strict(s, PurgeTombstones)
    ensures Pictured(start, Do(s, PurgeTombstones), d, k, x.(row := None, purged := map[k := x.row.value.updatedAt]))
  {
    PurgesIt(start, s, d, k, x);
    NothingFalls(start.server.rows, k, x.row.value);
    PurgedShows(start, s, d, k, x, x.row.value);
  }

  // ----- the first run: a cancelled delete -----

  /** The operation that sends the topic as it stands. */
  function Saved(o: Id, k: Key, body: Body, at: Time): Mutation {
    Mutation(o, k, Upsert, at, Some(Record(k.id, body, at, None)))
  }

  function Queued(o: Id, k: Key, operation: Operation, at: Time): Queue {
    map[k := Item(k, o, operation, at, 0, 0)]
  }

  /** The topic is made and its first push fails on the way, for all the device can tell. */
  ghost function AfterFirst(start: System, d: Id, k: Key, body: Body, a: Id): Shot {
    Shot(Device(map[k := Local(body, start.clock)], Queued(a, k, Upsert, start.clock), 0, Resting), None,
         SeqOf(start.server, start.user), 0, start.clock, {}, {a}, {(d, Saved(a, k, body, start.clock))}, map[])
  }

  function AfterJoin(start: System): Shot {
    Shot(EMPTY_DEVICE, None, SeqOf(start.server, start.user), 0, start.clock, {}, {}, {}, map[])
  }

  lemma JoinsFirst(start: System, d: Id, k: Key)
    requires Scene(start, d, k)
    ensures Enabled(start, Join(d)) && Reached(start, Do(start, Join(d)))
    ensures Pictured(start, Do(start, Join(d)), d, k, AfterJoin(start))
  {
    ReachStart(start);
    Joins(start, d, k);
    Reach(start, start, Join(d));
  }

  lemma FirstQueued(k: Key, a: Id, now: Time)
    ensures Enqueue(map[], InFlight(Resting), k, Upsert, a, now) == Queued(a, k, Upsert, now)
  {
  }

  lemma EditsFirst(start: System, s: System, d: Id, k: Key, body: Body, a: Id) returns (s1: System)
    requires Reached(start, s) && Pictured(start, s, d, k, AfterJoin(start)) && body.TopicBody? && k.table.Topics?
    ensures Reached(start, s1)
    ensures var x := AfterFirst(start, d, k, body, a); Pictured(start, s1, d, k, x.(sent := {}))
  {
    FirstQueued(k, a, start.clock);
    s1 := Edits(start, s, d, k, AfterJoin(start), body, a);
    assert EMPTY_DEVICE.rows[k := Local(body, start.clock)] == map[k := Local(body, start.clock)];
  }

  lemma MakesTopic(start: System, d: Id, k: Key, body: Body, a: Id) returns (s: System)
    requires Scene(start, d, k) && body.TopicBody?
    ensures Reached(start, s)
    ensures var x := AfterFirst(start, d, k, body, a); Pictured(start, s, d, k, x.(sent := {}))
  {
    JoinsFirst(start, d, k);
    s := EditsFirst(start, Do(start, Join(d)), d, k, body, a);
  }

  lemma FirstPushFails(start: System, d: Id, k: Key, body: Body, a: Id, size: Mutation -> nat) returns (s: System)
    requires Scene(start, d, k) && body.TopicBody? && start.check(Saved(a, k, body, start.clock)).None?
    ensures Reached(start, s) && Pictured(start, s, d, k, AfterFirst(start, d, k, body, a))
  {
    var s1 := MakesTopic(start, d, k, body, a);
    var x := AfterFirst(start, d, k, body, a);
    var m := Saved(a, k, body, start.clock);
    var item := x.dev.queue[k];
    ReachPushed(start, s1, d, k, item, m, size);
    PushedShows(start, s1, d, k, x.(sent := {}), item, m);
    var s2 := Pushed(s1, d, item, m);
    s := Rests(start, s2, d, k, x.(dev := x.dev.(phase := Pushing([item], [m], [m], 0, EMPTY_ACK))));
  }

  /** The device deletes the topic, and the delete cancels out with the queued edit. */
  lemma DeleteCancels(start: System, s: System, d: Id, k: Key, body: Body, a: Id, c: Id) returns (s1: System)
    requires Reached(start, s) && Pictured(start, s, d, k, AfterFirst(start, d, k, body, a)) && a != c
    ensures Reached(start, s1)
    ensures var x := AfterFirst(start, d, k, body, a); Pictured(start, s1, d, k, x.(dev := EMPTY_DEVICE, made := {a, c}))
    ensures (d, k) in s1.past.lastOp && s1.past.lastOp[(d, k)] == c
    ensures c in s1.past.cancelled && s1.past.cancelled[c] && c in s1.past.changes && s1.past.changes[c].at == start.clock
  {
    var x := AfterFirst(start, d, k, body, a);
    s1 := Removes(start, s, d, k, x, c);
    assert Enqueue(x.dev.queue, InFlight(Resting), k, Delete, c, start.clock) == map[];
    assert x.dev.rows - {k} == map[];
    assert EverSent(s, k) by {
      assert (d, Saved(a, k, body, start.clock)) in s.past.sent;
    }
  }

  /** The first operation arrives after all. */
  lemma ArrivesLate(start: System, s: System, d: Id, k: Key, x: Shot, body: Body, a: Id)
    requires Scene(start, d, k) && Pictured(start, s, d, k, x) && x.row.None? && a !in x.ops && body.TopicBody?
    requires (d, Saved(a, k, body, start.clock)) in x.sent && start.check(Saved(a, k, body, start.clock)).None?
    ensures var step := Straggler(d, Saved(a, k, body, start.clock), false, NoFault);
      && Enabled(s, step)
      && var s1 := Do(s, step);
         k in s1.server.rows && s1.server.rows[k] == Row(s.user, StoredBody(body), start.clock, None, x.seqNo + 1)
         && s1.devices == s.devices && s1.user == s.user
         && s1.past == s.past.(letGo := s1.past.letGo, unknown := s1.past.unknown, accepted := s1.past.accepted)
  {
    var m := Saved(a, k, body, start.clock);
    ClampExact(m, s.clock);
    StoresTopic(start, s, d, k, x, m, body);
  }

  /** A delete that cancelled an edit sent before may be lost: in a run that meets every hypothesis, the
      device ends without the topic and without any operation for it, the delete being its latest change,
      while the server shows the topic in a version no newer than the delete. */
  lemma CancelledDeleteComesBack(start: System, d: Id, k: Key, body: Body, a: Id, c: Id, size: Mutation -> nat)
    returns (s: System)
    requires Scene(start, d, k) && body.TopicBody? && a != c && start.check(Saved(a, k, body, start.clock)).None?
    ensures Reached(start, s)
    ensures c in s.past.changes && Shows(s.server, k) && s.server.rows[k].updatedAt <= s.past.changes[c].at
    ensures d in s.devices && k !in s.devices[d].rows && k !in s.devices[d].queue && s.devices[d].phase.Resting?
    ensures (d, k) in s.past.lastOp && s.past.lastOp[(d, k)] == c && c in s.past.cancelled && s.past.cancelled[c]
  {
    var s1 := FirstPushFails(start, d, k, body, a, size);
    var s2 := DeleteCancels(start, s1, d, k, body, a, c);
    var x := AfterFirst(start, d, k, body, a);
    var step := Straggler(d, Saved(a, k, body, start.clock), false, NoFault);
    ArrivesLate(start, s2, d, k, x.(dev := EMPTY_DEVICE, made := {a, c}), body, a);
    Reach(start, s2, step);
    s := Do(s2, step);
  }

  // ----- the second run: a late request -----

  /** The topic was edited again, under `b`. */
  ghost function Again(start: System, d: Id, k: Key, body: Body, a: Id, b: Id): Shot {
    var x := AfterFirst(start, d, k, body, a);
    x.(dev := x.dev.(queue := Queued(b, k, Upsert, start.clock)), made := {a, b})
  }

  /** That push was served while the answer got lost. */
  ghost function AfterSecond(start: System, d: Id, k: Key, body: Body, a: Id, b: Id, ack: Ack): Shot {
    var x := Again(start, d, k, body, a, b);
    var item, m := Item(k, b, Upsert, start.clock, 0, 0), Saved(b, k, body, start.clock);
    Stored(OnWire(x, d, item, m), item, m, Row(start.user, StoredBody(body), start.clock, None, x.seqNo + 1), ack)
  }

  lemma EditsAgain(start: System, s: System, d: Id, k: Key, body: Body, a: Id, b: Id) returns (s1: System)
    requires Reached(start, s) && Pictured(start, s, d, k, AfterFirst(start, d, k, body, a)) && a != b
    requires body.TopicBody? && k.table.Topics?
    ensures Reached(start, s1)
    ensures Pictured(start, s1, d, k, Again(start, d, k, body, a, b))
  {
    var x := AfterFirst(start, d, k, body, a);
    s1 := Edits(start, s, d, k, x, body, b);
    assert Enqueue(x.dev.queue, InFlight(Resting), k, Upsert, b, start.clock) == Queued(b, k, Upsert, start.clock);
    assert x.dev.rows[k := Local(body, start.clock)] == x.dev.rows;
    assert x.made + {b} == {a, b};
  }

  lemma ReachServed(start: System, s: System, d: Id, k: Key, x: Shot, item: Item, m: Mutation, row: Row) returns (s1: System, ack: Ack)
    requires Reached(start, s) && Pictured(start, s, d, k, x) && x.dev.phase == Pushing([item], [m], [m], 0, EMPTY_ACK)
    requires WillStore(start, s, d, k, x.seqNo, m, row)
    ensures Reached(start, s1)
    ensures Pictured(start, s1, d, k, Stored(x, item, m, row, ack))
  {
    ack := Serves(start, s, d, k, x, item, m, row);
    Reach(start, s, ServeNext(d, false, NoFault));
    s1 := DoServeNext(s, d, false, NoFault);
  }

  /** A resting device with one operation sends it and it is served. */
  lemma PushedAndServed(start: System, s: System, d: Id, k: Key, x: Shot, item: Item, m: Mutation, row: Row, size: Mutation -> nat)
    returns (s2: System, ack: Ack)
    requires Reached(start, s) && Pictured(start, s, d, k, x) && x.dev.phase.Resting? && x.dev.queue == map[k := item]
    requires item.nextRetryAt <= x.now && MutationFor(item, x.dev.rows) == Some(m)
    requires WithinSkew(m, x.now) && s.check(m).None? && WillStore(start, s, d, k, x.seqNo, m, row)
    ensures Reached(start, s2)
    ensures Pictured(start, s2, d, k, Stored(OnWire(x, d, item, m), item, m, row, ack))
  {
    ReachPushed(start, s, d, k, item, m, size);
    PushedShows(start, s, d, k, x, item, m);
    s2, ack := ReachServed(start, Pushed(s, d, item, m), d, k, OnWire(x, d, item, m), item, m, row);
  }

  /** A resting device with the first save of a topic sends it and it is served. */
  lemma SavedAndServed(start: System, s: System, d: Id, k: Key, x: Shot, item: Item, m: Mutation, body: Body, size: Mutation -> nat)
    returns (s2: System, ack: Ack)
    requires Scene(start, d, k) && body.TopicBody? && x.row.None? && m.opId !in x.ops
    requires m == Saved(m.opId, k, body, m.updatedAt)
    requires Reached(start, s) && Pictured(start, s, d, k, x) && x.dev.phase.Resting? && x.dev.queue == map[k := item]
    requires item.nextRetryAt <= x.now && MutationFor(item, x.dev.rows) == Some(m)
    requires WithinSkew(m, x.now) && start.check(m).None?
    ensures Reached(start, s2)
    ensures Pictured(start, s2, d, k,
      Stored(OnWire(x, d, item, m), item, m, Row(start.user, StoredBody(body), m.updatedAt, None, x.seqNo + 1), ack))
  {
    StoresTopic(start, s, d, k, x, m, body);
    s2, ack := PushedAndServed(start, s, d, k, x, item, m, Row(start.user, StoredBody(body), m.updatedAt, None, x.seqNo + 1), size);
  }

  lemma AgainSends(start: System, d: Id, k: Key, body: Body, a: Id, b: Id)
    ensures var x := Again(start, d, k, body, a, b);
      x.dev.queue == map[k := Item(k, b, Upsert, start.clock, 0, 0)] && x.dev.phase.Resting? && x.now == start.clock
      && MutationFor(Item(k, b, Upsert, start.clock, 0, 0), x.dev.rows) == Some(Saved(b, k, body, start.clock))
    ensures WithinSkew(Saved(b, k, body, start.clock), start.clock)
  {
  }

  lemma AgainServed(start: System, s: System, d: Id, k: Key, body: Body, a: Id, b: Id, size: Mutation -> nat)
    returns (s2: System, ack: Ack)
    requires Scene(start, d, k) && body.TopicBody? && start.check(Saved(b, k, body, start.clock)).None?
    requires Reached(start, s) && Pictured(start, s, d, k, Again(start, d, k, body, a, b))
    ensures Reached(start, s2) && Pictured(start, s2, d, k, AfterSecond(start, d, k, body, a, b, ack))
  {
    AgainSends(start, d, k, body, a, b);
    s2, ack := SavedAndServed(start, s, d, k, Again(start, d, k, body, a, b), Item(k, b, Upsert, start.clock, 0, 0),
                              Saved(b, k, body, start.clock), body, size);
  }

  lemma SecondPushServed(start: System, s: System, d: Id, k: Key, body: Body, a: Id, b: Id, size: Mutation -> nat)
    returns (s2: System, ack: Ack)
    requires Scene(start, d, k) && body.TopicBody? && a != b && start.check(Saved(b, k, body, start.clock)).None?
    requires Reached(start, s) && Pictured(start, s, d, k, AfterFirst(start, d, k, body, a))
    ensures Reached(start, s2) && Pictured(start, s2, d, k, AfterSecond(start, d, k, body, a, b, ack))
  {
    var s1 := EditsAgain(start, s, d, k, body, a, b);
    s2, ack := AgainServed(start, s1, d, k, body, a, b, size);
  }

  /** A millisecond later the topic was deleted while that push was still under way, so the delete was
      queued; then the push was given up. */
  function Deleted(x: Shot, k: Key, c: Id): Shot {
    x.(now := x.now + 1, dev := x.dev.(rows := map[], queue := Queued(c, k, Delete, x.now + 1), phase := Resting), made := x.made + {c})
  }

  lemma FlyingDelete(phase: Phase, k: Key, item: Item, c: Id, now: Time)
    requires phase.Pushing? && phase.items == [item] && item.operation.Upsert?
    ensures Enqueue(map[k := item], InFlight(phase), k, Delete, c, now) == Queued(c, k, Delete, now)
  {
    assert item.opId in InFlight(phase);
  }

  lemma RemovesFlying(start: System, s: System, d: Id, k: Key, x: Shot, c: Id, body: Body, item: Item) returns (s1: System)
    requires Reached(start, s) && Pictured(start, s, d, k, x) && c !in x.made
    requires x.dev.rows == map[k := Local(body, start.clock)] && x.dev.queue == map[k := item]
    requires x.dev.phase.Pushing? && x.dev.phase.items == [item] && item.operation.Upsert?
    ensures Reached(start, s1)
    ensures Pictured(start, s1, d, k, x.(dev := x.dev.(rows := map[], queue := Queued(c, k, Delete, x.now)), made := x.made + {c}))
  {
    FlyingDelete(x.dev.phase, k, item, c, x.now);
    assert x.dev.rows - {k} == map[];
    s1 := Removes(start, s, d, k, x, c);
  }

  lemma DeletesInFlight(start: System, s: System, d: Id, k: Key, x: Shot, c: Id, body: Body, item: Item) returns (s1: System)
    requires Reached(start, s) && Pictured(start, s, d, k, x) && c !in x.made
    requires x.dev.rows == map[k := Local(body, start.clock)] && x.dev.queue == map[k := item]
    requires x.dev.phase.Pushing? && x.dev.phase.items == [item] && item.operation.Upsert?
    ensures Reached(start, s1) && Pictured(start, s1, d, k, Deleted(x, k, c))
  {
    var now := x.now + 1;
    var x1 := x.(now := now);
    var t1 := Ticks(start, s, d, k, x, now);
    var t2 := RemovesFlying(start, t1, d, k, x1, c, body, item);
    s1 := Rests(start, t2, d, k, x1.(dev := x.dev.(rows := map[], queue := Queued(c, k, Delete, now)), made := x.made + {c}));
  }

  function Tombstone(row: Row, at: Time): Row {
    row.(deletedAt := Some(at), updatedAt := at, serverSeq := row.serverSeq + 1)
  }

  /** The delete was served, and again the answer got lost. */
  ghost function Buried(x: Shot, d: Id, k: Key, c: Id): Shot
    requires x.row.Some?
  {
    x.(row := Some(Tombstone(x.row.value, x.now)), seqNo := x.seqNo + 1, ops := x.ops + {c},
       sent := x.sent + {(d, Mutation(c, k, Delete, x.now, None))})
  }

  lemma DeleteServed(start: System, s: System, d: Id, k: Key, x: Shot, c: Id, size: Mutation -> nat) returns (s1: System)
    requires Reached(start, s) && Pictured(start, s, d, k, x) && c !in x.ops && x.now > 0
    requires x.dev.queue == Queued(c, k, Delete, x.now) && x.dev.phase.Resting?
    requires x.row.Some? && x.row.value.owner == s.user && x.row.value.updatedAt <= x.now && x.row.value.serverSeq == x.seqNo
    requires s.check(Mutation(c, k, Delete, x.now, None)).None?
    ensures Reached(start, s1) && Pictured(start, s1, d, k, Buried(x, d, k, c))
  {
    var item, m := Item(k, c, Delete, x.now, 0, 0), Mutation(c, k, Delete, x.now, None);
    StoresTombstone(start, s, d, k, x, m);
    var row := Tombstone(x.row.value, x.now);
    var t1, ack := PushedAndServed(start, s, d, k, x, item, m, row, size);
    s1 := Rests(start, t1, d, k, x.(dev := x.dev.(phase := Pushing([item], [m], [m], 1, ack)), sent := x.sent + {(d, m)},
                                    row := Some(row), seqNo := x.seqNo + 1, ops := x.ops + {c}));
  }

  lemma ReachBegun(start: System, s: System, d: Id, k: Key, x: Shot, since: nat, limit: nat, page: Page) returns (s1: System)
    requires Reached(start, s) && Pictured(start, s, d, k, x) && x.dev.phase.Resting? && since <= x.dev.cursor && limit >= 1
    requires SeqsSound(s.server, s.user) && page == PullPage(s.server, s.user, since, limit)
    ensures Reached(start, s1)
    ensures Pictured(start, s1, d, k, x.(dev := x.dev.(phase := Pulling(page, since, x.seqNo, 0, None))))
  {
    Pulls(s, d, since, limit, page);
    Reach(start, s, StartPull(d, since, limit));
    BegunShows(start, s, d, k, x, page, since);
    s1 := Begun(s, d, page, since);
  }

  lemma EmptySnapshot(records: seq<PageRow>)
    ensures Snapshot(map[], records) == map[]
  {
  }

  lemma BeginsTombstone(start: System, s: System, d: Id, k: Key, x: Shot, page: Page) returns (s1: System)
    requires Reached(start, s) && Pictured(start, s, d, k, x) && x.dev.phase.Resting? && x.dev.rows == map[]
    requires SeqsSound(s.server, s.user) && page == PullPage(s.server, s.user, 0, 1)
    ensures Reached(start, s1)
    ensures Pictured(start, s1, d, k, x.(dev := x.dev.(phase := Pulling(page, 0, x.seqNo, 0, Some(map[])))))
  {
    var t1 := ReachBegun(start, s, d, k, x, 0, 1, page);
    EmptySnapshot(page.records);
    s1 := Begins(start, t1, d, k, x.(dev := x.dev.(phase := Pulling(page, 0, x.seqNo, 0, None))));
  }

  /** A device without rows pulls the page that holds the one tombstone, and moves its cursor past it. */
  lemma PullsTombstone(start: System, s: System, d: Id, k: Key, x: Shot, page: Page) returns (s1: System)
    requires Scene(start, d, k) && Reached(start, s) && Pictured(start, s, d, k, x)
    requires x.dev.phase.Resting? && x.dev.rows == map[] && x.dev.cursor == 0
    requires x.row.Some? && x.row.value.owner == s.user && !Live(x.row.value) && 0 < x.row.value.serverSeq == x.seqNo
    requires page == PullPage(s.server, s.user, 0, 1) && page.records == [PageRow(k, x.row.value)] && page.watermark == x.seqNo
    requires SeqsSound(s.server, s.user)
    ensures Reached(start, s1) && Pictured(start, s1, d, k, x.(dev := x.dev.(cursor := x.seqNo)))
  {
    var p := Pulling(page, 0, x.seqNo, 0, None);
    var t2 := BeginsTombstone(start, s, d, k, x, page);
    var t3 := AppliesTombstone(start, t2, d, k, x.(dev := x.dev.(phase := p.(known := Some(map[])))));
    s1 := Finishes(start, t3, d, k, x.(dev := x.dev.(phase := p.(known := Some(map[]), next := 1))));
  }

  /** The next pull request confirms the tombstone, and the purge takes it. */
  lemma ConfirmsAndPurges(start: System, s: System, d: Id, k: Key, x: Shot) returns (s1: System, phase: Phase)
    requires Scene(start, d, k) && Reached(start, s) && Pictured(start, s, d, k, x) && x.purged == map[]
    requires x.dev.phase.Resting? && x.dev.cursor == x.seqNo && x.now <= start.clock + 1
    requires x.row.Some? && x.row.value.owner == s.user && !Live(x.row.value) && x.row.value.serverSeq == x.seqNo
    requires SeqsSound(s.server, s.user)
    ensures Reached(start, s1)
    ensures Pictured(start, s1, d, k,
      x.(dev := x.dev.(phase := phase), pulled := x.seqNo, row := None, purged := map[k := x.row.value.updatedAt]))
  {
    var page := PullPage(s.server, s.user, x.seqNo, 1);
    var t1 := ReachBegun(start, s, d, k, x, x.seqNo, 1, page);
    phase := Pulling(page, x.seqNo, x.seqNo, 0, None);
    var t2 := Reports(start, t1, d, k, x.(dev := x.dev.(phase := phase)));
    Purges(start, t2, d, k, x.(dev := x.dev.(phase := phase), pulled := x.seqNo));
    Reach(start, t2, PurgeTombstones);
    s1 := Do(t2, PurgeTombstones);
  }

  /** The tombstone was delivered, confirmed and purged. */
  function Gone(x: Shot, k: Key, phase: Phase): Shot
    requires x.row.Some?
  {
    x.(dev := x.dev.(cursor := x.seqNo, phase := phase), pulled := x.seqNo, row := None, purged := map[k := x.row.value.updatedAt])
  }

  /** A deleted topic whose tombstone is delivered, confirmed and purged. */
  lemma GoesForGood(start: System, s: System, d: Id, k: Key, x: Shot) returns (s1: System, phase: Phase)
    requires Scene(start, d, k) && Reached(start, s) && Pictured(start, s, d, k, x) && x.purged == map[]
    requires x.dev.phase.Resting? && x.dev.rows == map[] && x.dev.cursor == 0 && x.now <= start.clock + 1
    requires x.row.Some? && x.row.value.owner == s.user && !Live(x.row.value) && 0 < x.row.value.serverSeq == x.seqNo
    ensures Reached(start, s1)
    ensures Pictured(start, s1, d, k, Gone(x, k, phase))
  {
    OneRow(start, s, d, k, x);
    PullsOne(start, s, d, k, x);
    var t1 := PullsTombstone(start, s, d, k, x, PullPage(s.server, s.user, 0, 1));
    OneRow(start, t1, d, k, x.(dev := x.dev.(cursor := x.seqNo)));
    s1, phase := ConfirmsAndPurges(start, t1, d, k, x.(dev := x.dev.(cursor := x.seqNo)));
  }

  lemma SavedThenBuried(start: System, s: System, d: Id, k: Key, body: Body, x: Shot, item: Item, c: Id, size: Mutation -> nat)
    returns (s1: System, z: Shot)
    requires Reached(start, s) && Pictured(start, s, d, k, x) && c !in x.made && c !in x.ops && x.now >= 0
    requires x.dev.rows == map[k := Local(body, start.clock)] && x.dev.queue == map[k := item] && x.dev.cursor == 0
    requires x.dev.phase.Pushing? && x.dev.phase.items == [item] && item.operation.Upsert?
    requires x.row.Some? && x.row.value.owner == s.user && x.row.value.updatedAt <= x.now == start.clock && x.row.value.serverSeq == x.seqNo
    requires start.check(Mutation(c, k, Delete, start.clock + 1, None)).None?
    ensures Reached(start, s1) && Pictured(start, s1, d, k, z)
    ensures z.row.Some? && z.row.value.owner == x.row.value.owner && !Live(z.row.value) && z.row.value.updatedAt == start.clock + 1
    ensures 0 < z.row.value.serverSeq == z.seqNo && z.now == start.clock + 1
    ensures z.dev.phase.Resting? && z.dev.rows == map[] && z.dev.cursor == 0
    ensures z.ops == x.ops + {c} && x.sent <= z.sent && z.purged == x.purged
  {
    var t := DeletesInFlight(start, s, d, k, x, c, body, item);
    z := Buried(Deleted(x, k, c), d, k, c);
    s1 := DeleteServed(start, t, d, k, Deleted(x, k, c), c, size);
  }

  /** From the second push on: deleted, confirmed and purged. */
  lemma SavedThenPurged(start: System, s: System, d: Id, k: Key, body: Body, x: Shot, item: Item, c: Id, size: Mutation -> nat)
    returns (s1: System, x1: Shot)
    requires Scene(start, d, k) && Reached(start, s) && Pictured(start, s, d, k, x) && c !in x.made && c !in x.ops
    requires x.dev.rows == map[k := Local(body, start.clock)] && x.dev.queue == map[k := item] && x.dev.cursor == 0
    requires x.dev.phase.Pushing? && x.dev.phase.items == [item] && item.operation.Upsert? && x.purged == map[]
    requires x.row.Some? && x.row.value.owner == s.user && x.row.value.updatedAt <= x.now == start.clock && x.row.value.serverSeq == x.seqNo
    requires start.check(Mutation(c, k, Delete, start.clock + 1, None)).None?
    ensures Reached(start, s1) && Pictured(start, s1, d, k, x1)
    ensures x1.row.None? && x1.ops == x.ops + {c} && x.sent <= x1.sent && x1.purged == map[k := start.clock + 1]
  {
    var t, z := SavedThenBuried(start, s, d, k, body, x, item, c, size);
    var phase: Phase;
    s1, phase := GoesForGood(start, t, d, k, z);
    x1 := Gone(z, k, phase);
  }

  /** The topic has been made, saved, deleted and purged, and its very first push is still under way. */
  lemma UpToThePurge(start: System, d: Id, k: Key, body: Body, a: Id, b: Id, c: Id, size: Mutation -> nat)
    returns (s: System, x: Shot)
    requires Scene(start, d, k) && body.TopicBody? && a != b && c !in {a, b}
    requires start.check(Saved(a, k, body, start.clock)).None? && start.check(Saved(b, k, body, start.clock)).None?
    requires start.check(Mutation(c, k, Delete, start.clock + 1, None)).None?
    ensures Reached(start, s) && Pictured(start, s, d, k, x) && x.row.None? && x.ops == {b, c}
    ensures (d, Saved(a, k, body, start.clock)) in x.sent && x.purged == map[k := start.clock + 1]
  {
    var s1 := FirstPushFails(start, d, k, body, a, size);
    var s2, ack := SecondPushServed(start, s1, d, k, body, a, b, size);
    s, x := SavedThenPurged(start, s2, d, k, body, AfterSecond(start, d, k, body, a, b, ack), Item(k, b, Upsert, start.clock, 0, 0), c, size);
  }

  /** Why stale late requests are excluded: a strict run leads to a state in which the first push of a
      topic, arriving after the topic's tombstone was confirmed and purged, is stored live in a version
      older than that tombstone. */
  lemma LateRequestComesBack(start: System, d: Id, k: Key, body: Body, a: Id, b: Id, c: Id, size: Mutation -> nat)
    returns (s: System)
    requires Scene(start, d, k) && body.TopicBody? && a != b && c !in {a, b}
    requires start.check(Saved(a, k, body, start.clock)).None? && start.check(Saved(b, k, body, start.clock)).None?
    requires start.check(Mutation(c, k, Delete, start.clock + 1, None)).None?
    ensures Reached(start, s)
    ensures var step := Straggler(d, Saved(a, k, body, start.clock), false, NoFault);
      Enabled(s, step) && R.StaleLate(s, step.m) && R.ShowsStale(Do(s, step), k)
  {
    var x: Shot;
    s, x := UpToThePurge(start, d, k, body, a, b, c, size);
    ArrivesLate(start, s, d, k, x, body, a);
  }
}
