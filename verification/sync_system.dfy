// The composed system: one user's devices and the server, step by step, in any interleaving.

module SyncSystem {
  import opened SyncTypes
  import opened ServerApply
  import opened Validation
  import opened PushBatch
  import opened Devices
  import opened Paging
  import opened Outbox
  import opened ClientPull
  import opened PullDelta

  /** A device syncs one thing at a time: it pushes a batch, or it pulls a page. While pushing, `done`
      operations of the admitted request have been served and noted in `ack`. While pulling, `upTo` is
      the server's sequence when the page was read; `known` is the view of the local rows taken when the
      delta begins, and the first `next` records have been applied. */
  datatype Phase =
    | Resting
    | Pushing(items: seq<Item>, request: seq<Mutation>, admitted: seq<Mutation>, done: nat, ack: Ack)
    | Pulling(page: Page, since: nat, upTo: nat, next: nat, known: Option<map<Key, Time>>)

  datatype Device = Device(rows: map<Key, Local>, queue: Queue, cursor: nat, phase: Phase)

  const EMPTY_DEVICE := Device(map[], map[], 0, Resting)

  /** A change made on a device: an edit with what it stored, or a delete with the time it will carry. */
  datatype Change = Change(d: Id, k: Key, operation: Operation, at: Time, body: Option<Body>)

  /** What has happened so far; no step looks at it except to mint fresh op ids. */
  datatype History = History(
    sent: set<(Id, Mutation)>,       // every operation ever put on the wire, with its device
    changes: map<Id, Change>,        // every local change ever made, by its op id
    accepted: set<Id>,               // every op id the server ever logged
    letGo: map<Key, Time>,           // the newest version the server stored and then removed or set back, per record
    unknown: set<Id>,                // deletes the server logged while it did not store the record
    purged: map<Key, Time>,          // the newest tombstone ever purged, per record
    lastOp: map<(Id, Key), Id>,      // the op of a device's latest local change to a record
    failed: set<(Id, Id)>,           // every op a device ever recorded as failed
    cancelled: map<Id, bool>,        // deletes that cancelled a queued edit; whether the record had ever been sent
    fallen: set<Id>,                 // changes whose row fell with a topic that a pull deleted
    left: set<Id>)                   // latest changes of devices that left or started over

  const NO_HISTORY := History({}, map[], {}, map[], {}, map[], map[], {}, map[], {}, {})

  datatype System = System(user: Id, check: Check, server: Server, devices: map<Id, Device>, clock: Time, past: History)

  datatype Step =
    | Tick(now: Time)
    | Join(d: Id)
    | Retire(d: Id)
    | Edit(d: Id, k: Key, body: Body, at: Time, opId: Id)
    | Remove(d: Id, k: Key, at: Time, opId: Id)
    | StartPush(d: Id, order: seq<Key>, size: Mutation -> nat)
    | ServeNext(d: Id, hard: bool, fault: Fault)
    | Resend(d: Id)
    | AckArrives(d: Id, wake: Id -> Time)
    | PushFails(d: Id)
    | Straggler(d: Id, m: Mutation, hard: bool, fault: Fault)
    | StartPull(d: Id, since: nat, limit: nat)
    | BeginDelta(d: Id)
    | ReportIn(d: Id)
    | ApplyNext(d: Id, readable: bool)
    | FinishPull(d: Id)
    | PullFails(d: Id)
    | PurgeTombstones
    | ForgetOps(ops: set<(Id, Id)>)

  /** The op ids a device has in flight. */
  function InFlight(phase: Phase): set<Id> {
    if phase.Pushing? then set item | item in phase.items :: item.opId else {}
  }

  /** The outbox as it is read: every item once, oldest first. */
  ghost predicate IsQueueOrder(q: Queue, order: seq<Key>) {
    && (forall k :: k in order <==> k in q)
    && (forall i, j :: 0 <= i < j < |order| ==> order[i] != order[j])
    && (forall i, j :: 0 <= i < j < |order| ==> order[i] in q && order[j] in q && q[order[i]].createdAt <= q[order[j]].createdAt)
  }

  function ItemsOf(q: Queue, order: seq<Key>): (items: seq<Item>)
    requires forall k :: k in order ==> k in q
    ensures |items| == |order| && forall i :: 0 <= i < |items| ==> items[i] == q[order[i]]
  {
    seq(|order|, i requires 0 <= i < |order| => q[order[i]])
  }

  ghost predicate Enabled(s: System, step: Step) {
    match step
    case Tick(now) => now >= s.clock
    case Join(d) => d != "" && ReportDevice(s.server.devices, s.user, d, None, s.clock).Registered?
    case Retire(d) => d in s.devices
    case Edit(d, k, body, at, opId) => d in s.devices && opId !in s.past.changes && body.TopicBody? == k.table.Topics?
    case Remove(d, k, at, opId) => d in s.devices && opId !in s.past.changes
    case StartPush(d, order, size) => d in s.devices && s.devices[d].phase.Resting? && IsQueueOrder(s.devices[d].queue, order)
    case ServeNext(d, hard, fault) =>
      d in s.devices && s.devices[d].phase.Pushing? && s.devices[d].phase.done < |s.devices[d].phase.admitted|
    case Resend(d) => d in s.devices && s.devices[d].phase.Pushing?
    case AckArrives(d, wake) =>
      d in s.devices && s.devices[d].phase.Pushing? && s.devices[d].phase.done == |s.devices[d].phase.admitted|
    case PushFails(d) => d in s.devices && s.devices[d].phase.Pushing?
    case Straggler(d, m, hard, fault) => (d, m) in s.past.sent && s.check(ClampMutationTimes(m, s.clock)).None?
    case StartPull(d, since, limit) =>
      d in s.devices && s.devices[d].phase.Resting? && since <= s.devices[d].cursor && limit >= 1
      && SeqsSound(s.server, s.user)
    case ReportIn(d) =>
      d in s.devices && ReportDevice(s.server.devices, s.user, d, SentCursor(s.devices[d].phase), s.clock).Registered?
    case BeginDelta(d) => d in s.devices && s.devices[d].phase.Pulling? && s.devices[d].phase.known.None?
    case ApplyNext(d, readable) =>
      d in s.devices && IsApplying(s.devices[d]) && s.devices[d].phase.next < |s.devices[d].phase.page.records|
      && AppliedNext(s.devices[d], readable).Some?
    case FinishPull(d) =>
      d in s.devices && IsApplying(s.devices[d]) && s.devices[d].phase.next == |s.devices[d].phase.page.records|
    case PullFails(d) => d in s.devices && s.devices[d].phase.Pulling?
    case PurgeTombstones => true
    case ForgetOps(_) => true
  }

  /** A delta has begun. */
  predicate IsApplying(dev: Device) { dev.phase.Pulling? && dev.phase.known.Some? }

  /** The delta under way, one record further. */
  function AppliedNext(dev: Device, readable: bool): Option<Applying>
    requires IsApplying(dev) && dev.phase.next < |dev.phase.page.records|
  {
    ApplyKnown(Applying(dev.rows, dev.phase.known.value, {}), dev.phase.page.records[dev.phase.next], readable)
  }

  /** The cursor a request carries: a pull sends its `since`, anything else none. */
  function SentCursor(phase: Phase): Option<nat> {
    if phase.Pulling? then Some(phase.since) else None
  }

  function WithDevice(s: System, d: Id, device: Device): System {
    s.(devices := s.devices[d := device])
  }

  /** The newest time seen per record, after meeting these rows. */
  function Raise(best: map<Key, Time>, rows: map<Key, Row>): map<Key, Time> {
    map k | k in best.Keys + rows.Keys ::
      if k !in rows then best[k] else if k !in best then rows[k].updatedAt else Max(best[k], rows[k].updatedAt)
  }

  function OwnRows(rows: map<Key, Row>, user: Id): map<Key, Row> {
    map k | k in rows && rows[k].owner == user :: rows[k]
  }

  /** Versions that a served operation removes or sets back in time. A hard delete counts with its own
      time, as if it had stored its tombstone first. */
  function LetGo(before: map<Key, Row>, after: map<Key, Row>, m: Mutation): map<Key, Row> {
    map k | k in before && (k !in after || after[k].updatedAt < before[k].updatedAt) ::
      before[k].(updatedAt := if k == m.key && k !in after && m.operation.Delete? then Max(before[k].updatedAt, m.updatedAt)
                              else before[k].updatedAt)
  }

  /** The delete was logged just now, and the server did not store its record. */
  predicate WasUnknown(before: Server, after: Server, user: Id, m: Mutation) {
    m.operation.Delete? && m.key !in before.rows && (user, m.opId) in after.ops && (user, m.opId) !in before.ops
  }

  ghost function Served(s: System, server: Server, m: Mutation): System {
    s.(server := server,
       past := s.past.(
         letGo := Raise(s.past.letGo, LetGo(OwnRows(s.server.rows, s.user), OwnRows(server.rows, s.user), m)),
         unknown := s.past.unknown + (if WasUnknown(s.server, server, s.user, m) then {m.opId} else {}),
         accepted := s.past.accepted + (if (s.user, m.opId) in server.ops then {m.opId} else {})))
  }

  ghost function DoEdit(s: System, d: Id, k: Key, body: Body, at: Time, opId: Id): System
    requires d in s.devices
  {
    var dev := s.devices[d];
    WithDevice(s, d, dev.(rows := dev.rows[k := Local(body, at)],
                          queue := Enqueue(dev.queue, InFlight(dev.phase), k, Upsert, opId, at)))
    .(past := s.past.(changes := s.past.changes[opId := Change(d, k, Upsert, at, Some(body))],
                      lastOp := s.past.lastOp[(d, k) := opId]))
  }

  ghost predicate EverSent(s: System, k: Key) {
    exists x :: x in s.past.sent && x.1.key == k
  }

  /** A delete replaces what is queued, or cancels out with it. */
  ghost function DoRemove(s: System, d: Id, k: Key, at: Time, opId: Id): System
    requires d in s.devices
  {
    var dev := s.devices[d];
    var queue := Enqueue(dev.queue, InFlight(dev.phase), k, Delete, opId, at);
    WithDevice(s, d, dev.(rows := dev.rows - {k}, queue := queue))
    .(past := s.past.(
        changes := s.past.changes[opId := Change(d, k, Delete, if k in queue then queue[k].createdAt else at, None)],
        cancelled := if k in queue then s.past.cancelled else s.past.cancelled[opId := EverSent(s, k)],
        lastOp := s.past.lastOp[(d, k) := opId]))
  }

  ghost function NewRequest(items: seq<Item>, request: seq<Mutation>, now: Time, check: Check): Phase {
    Pushing(items, request, Admitted(request, now, check), 0,
            EMPTY_ACK.(rejected := MalformedOf(ClampAll(request, now), check)))
  }

  /** Building the batch and marking it in flight is one step. */
  ghost function DoStartPush(s: System, d: Id, order: seq<Key>, size: Mutation -> nat): System
    requires d in s.devices && IsQueueOrder(s.devices[d].queue, order)
  {
    var dev := s.devices[d];
    var b := Build(ItemsOf(dev.queue, order), dev.rows, s.clock, size);
    WithDevice(s, d, dev.(queue := dev.queue - b.dropped,
                          phase := if b.mutations == [] then Resting else NewRequest(b.items, b.mutations, s.clock, s.check)))
    .(past := s.past.(sent := s.past.sent + (set m | m in b.mutations :: (d, m))))
  }

  /** The device's request is answered one operation further. */
  function Answered(s: System, d: Id, ack: Ack): System
    requires d in s.devices && s.devices[d].phase.Pushing?
  {
    WithDevice(s, d, s.devices[d].(phase := s.devices[d].phase.(done := s.devices[d].phase.done + 1, ack := ack)))
  }

  ghost function DoServeNext(s: System, d: Id, hard: bool, fault: Fault): System
    requires Enabled(s, ServeNext(d, hard, fault))
  {
    var p := s.devices[d].phase;
    var m := p.admitted[p.done];
    var (server, verdict) := ApplyOp(s.server, s.user, d, m, hard, Env(s.clock, fault));
    Answered(Served(s, server, m), d, Noted(p.ack, m.opId, verdict))
  }

  /** A renamed topic takes the server's title and time locally. */
  function ApplyConflicts(rows: map<Key, Local>, conflicts: seq<Conflict>): map<Key, Local> {
    if conflicts == [] then rows
    else
      var n := |conflicts| - 1;
      var before := ApplyConflicts(rows, conflicts[..n]);
      var k := Key(Topics, conflicts[n].topicId);
      if k in before && before[k].body.TopicBody?
      then before[k := Local(before[k].body.(title := conflicts[n].newTitle), conflicts[n].updatedAt)]
      else before
  }

  /** The last conflict about a record, if any. */
  function LastAbout(conflicts: seq<Conflict>, k: Key): Option<Conflict> {
    if conflicts == [] then None
    else if Key(Topics, conflicts[|conflicts| - 1].topicId) == k then Some(conflicts[|conflicts| - 1])
    else LastAbout(conflicts[..|conflicts| - 1], k)
  }

  /** A local topic takes title and time of the last conflict about it, if there is one, and keeps all
      else; every other row stays, and none comes or goes. */
  lemma {:induction false} ConflictsRename(rows: map<Key, Local>, conflicts: seq<Conflict>, k: Key)
    ensures k in ApplyConflicts(rows, conflicts) <==> k in rows
    ensures k in rows ==>
      var c := LastAbout(conflicts, k);
      ApplyConflicts(rows, conflicts)[k] ==
        if c.Some? && rows[k].body.TopicBody? then Local(rows[k].body.(title := c.value.newTitle), c.value.updatedAt) else rows[k]
  {
    if conflicts != [] {
      ConflictsRename(rows, conflicts[..|conflicts| - 1], k);
    }
  }

  /** The local title index lets the rename in. */
  predicate LetsIn(rows: map<Key, Local>, c: Conflict) {
    var k := Key(Topics, c.topicId);
    k in rows && rows[k].body.TopicBody? ==> !TitleTaken(rows, c.newTitle, k)
  }

  /** The renames taken over: up to the first that the index refuses. */
  function Taken(rows: map<Key, Local>, conflicts: seq<Conflict>): (r: seq<Conflict>)
    ensures r <= conflicts
  {
    if conflicts == [] then []
    else
      var n := |conflicts| - 1;
      var before := Taken(rows, conflicts[..n]);
      if |before| == n && LetsIn(ApplyConflicts(rows, before), conflicts[n]) then conflicts else before
  }

  /** An answer as far as it takes effect: a refused rename fails the rest, and the rejections with it. */
  function Heard(rows: map<Key, Local>, ack: Ack): Ack {
    var taken := Taken(rows, ack.conflicts);
    if taken == ack.conflicts then ack else Ack(ack.accepted, [], taken)
  }

  lemma ConflictsOneByOne(rows: map<Key, Local>, conflicts: seq<Conflict>, c: Conflict)
    ensures ApplyConflicts(rows, conflicts + [c]) == ApplyConflicts(ApplyConflicts(rows, conflicts), [c])
  {
    assert (conflicts + [c])[..|conflicts|] == conflicts;
    assert [c][..0] == [];
  }

  lemma OneRename(rows: map<Key, Local>, c: Conflict)
    ensures var k := Key(Topics, c.topicId);
      ApplyConflicts(rows, [c]) ==
        if k in rows && rows[k].body.TopicBody? then rows[k := Local(rows[k].body.(title := c.newTitle), c.updatedAt)] else rows
  {
    var one := [c];
    assert one[..|one| - 1] == [];
    assert ApplyConflicts(rows, one[..|one| - 1]) == rows;
  }

  /** One rename keeps local titles different exactly if the index lets it in. */
  lemma RenameKeepsTitles(rows: map<Key, Local>, c: Conflict)
    requires TitlesDiffer(rows)
    ensures TitlesDiffer(ApplyConflicts(rows, [c])) <==> LetsIn(rows, c)
  {
    var k := Key(Topics, c.topicId);
    OneRename(rows, c);
    var after := ApplyConflicts(rows, [c]);
    if k in rows && rows[k].body.TopicBody? {
      assert Titled(after, k, c.newTitle);
      forall j, title | j != k ensures Titled(after, j, title) == Titled(rows, j, title) {
      }
    }
  }

  /** Every rename taken over leaves local titles pairwise different, and the one it stops at would not. */
  lemma {:induction false} TakenKeepsTitles(rows: map<Key, Local>, conflicts: seq<Conflict>)
    requires TitlesDiffer(rows)
    ensures var taken := Taken(rows, conflicts);
      && TitlesDiffer(ApplyConflicts(rows, taken))
      && (taken != conflicts ==> |taken| < |conflicts| && !TitlesDiffer(ApplyConflicts(rows, conflicts[..|taken| + 1])))
  {
    if conflicts != [] {
      var n := |conflicts| - 1;
      var init, c := conflicts[..n], conflicts[n];
      var before := Taken(rows, init);
      TakenKeepsTitles(rows, init);
      assert conflicts == init + [c];
      if before == init {
        RenameKeepsTitles(ApplyConflicts(rows, init), c);
        ConflictsOneByOne(rows, init, c);
        assert conflicts[..n + 1] == conflicts;
      } else {
        assert init[..|before| + 1] == conflicts[..|before| + 1];
      }
    }
  }

  /** An answer whose rename is refused takes nothing but accepted operations, and those of topics renamed before,
      from the outbox; it retries none and gives none up. One whose renames are all let in is heard in full. */
  lemma HeardStops(rows: map<Key, Local>, q: Queue, items: seq<Item>, ack: Ack, wake: Id -> Time, k: Key)
    requires DistinctItems(items) && Current(q, items) && (forall j :: j in q ==> q[j].key == j)
    ensures var heard, taken := Heard(rows, ack), Taken(rows, ack.conflicts);
      if taken == ack.conflicts then heard == ack
      else
        && FailedOps(items, heard.rejected) == {}
        && At(ApplyAck(q, items, heard, wake), k)
           == if k in q && q[k] in items && (q[k].opId in ack.accepted || ConflictHits(items, taken, q[k])) then None else At(q, k)
  {
    AckIsFate(q, items, Heard(rows, ack), wake, k);
  }

  /** The answer the device has in hand, as far as it will take effect. */
  function Hearing(dev: Device): Device
    requires dev.phase.Pushing?
  {
    dev.(phase := dev.phase.(ack := Heard(dev.rows, dev.phase.ack)))
  }

  /** The device takes an answer as it stands. */
  function TakeAnswer(s: System, d: Id, wake: Id -> Time): System
    requires d in s.devices && s.devices[d].phase.Pushing?
  {
    var dev := s.devices[d];
    var p := dev.phase;
    WithDevice(s, d, dev.(rows := ApplyConflicts(dev.rows, p.ack.conflicts),
                          queue := ApplyAck(dev.queue, p.items, p.ack, wake), phase := Resting))
    .(past := s.past.(failed := s.past.failed + (set o | o in FailedOps(p.items, p.ack.rejected) :: (d, o))))
  }

  ghost function DoAckArrives(s: System, d: Id, wake: Id -> Time): System
    requires Enabled(s, AckArrives(d, wake))
  {
    TakeAnswer(WithDevice(s, d, Hearing(s.devices[d])), d, wake)
  }

  /** An answer without renames is heard in full. */
  lemma HeardInFull(s: System, d: Id, wake: Id -> Time)
    requires Enabled(s, AckArrives(d, wake)) && s.devices[d].phase.ack.conflicts == []
    ensures DoAckArrives(s, d, wake) == TakeAnswer(s, d, wake)
    ensures TakeAnswer(s, d, wake).devices[d].rows == s.devices[d].rows
  {
    assert Hearing(s.devices[d]) == s.devices[d];
    assert s.devices[d := s.devices[d]] == s.devices;
  }

  ghost function DoStraggler(s: System, d: Id, m: Mutation, hard: bool, fault: Fault): System {
    var late := ClampMutationTimes(m, s.clock);
    Served(s, ApplyOp(s.server, s.user, d, late, hard, Env(s.clock, fault)).0, late)
  }

  /** The changes whose rows a deleted topic took along. */
  function FallenNow(past: History, d: Id, before: map<Key, Local>, after: map<Key, Local>, r: PageRow): set<Id> {
    set k | k in before && k !in after && k != r.key && (d, k) in past.lastOp :: past.lastOp[(d, k)]
  }

  ghost function DoApplyNext(s: System, d: Id, readable: bool): System
    requires Enabled(s, ApplyNext(d, readable))
  {
    var dev := s.devices[d];
    var a := AppliedNext(dev, readable).value;
    WithDevice(s, d, dev.(rows := a.rows, phase := dev.phase.(next := dev.phase.next + 1, known := Some(a.known))))
    .(past := s.past.(fallen := s.past.fallen + FallenNow(s.past, d, dev.rows, a.rows, dev.phase.page.records[dev.phase.next])))
  }

  /** The device's latest changes are left behind. */
  function Leaving(past: History, d: Id): History {
    past.(left := past.left + (set x | x in past.lastOp && x.0 == d :: past.lastOp[x]))
  }

  function PurgedNow(s: Server, user: Id, now: Time): map<Key, Row> {
    map k | k in PurgeKeys(s, user, now) :: s.rows[k]
  }

  ghost function Do(s: System, step: Step): System
    requires Enabled(s, step)
  {
    match step
    case Tick(now) => s.(clock := now)
    case Join(d) =>
      WithDevice(s, d, EMPTY_DEVICE)
      .(server := s.server.(devices := ReportDevice(s.server.devices, s.user, d, None, s.clock).devices),
        past := Leaving(s.past, d))
    case Retire(d) => s.(devices := s.devices - {d}, past := Leaving(s.past, d))
    case Edit(d, k, body, at, opId) => DoEdit(s, d, k, body, at, opId)
    case Remove(d, k, at, opId) => DoRemove(s, d, k, at, opId)
    case StartPush(d, order, size) => DoStartPush(s, d, order, size)
    case ServeNext(d, hard, fault) => DoServeNext(s, d, hard, fault)
    case Resend(d) =>
      WithDevice(s, d, s.devices[d].(phase := NewRequest(s.devices[d].phase.items, s.devices[d].phase.request, s.clock, s.check)))
    case AckArrives(d, wake) => DoAckArrives(s, d, wake)
    case PushFails(d) => WithDevice(s, d, s.devices[d].(phase := Resting))
    case Straggler(d, m, hard, fault) => DoStraggler(s, d, m, hard, fault)
    case StartPull(d, since, limit) =>
      WithDevice(s, d, s.devices[d].(phase := Pulling(PullPage(s.server, s.user, since, limit), since, SeqOf(s.server, s.user), 0, None)))
    case BeginDelta(d) =>
      var dev := s.devices[d];
      WithDevice(s, d, dev.(phase := dev.phase.(known := Some(Snapshot(dev.rows, dev.phase.page.records)))))
    case ReportIn(d) =>
      s.(server := s.server.(devices :=
        ReportDevice(s.server.devices, s.user, d, SentCursor(s.devices[d].phase), s.clock).devices))
    case ApplyNext(d, readable) => DoApplyNext(s, d, readable)
    case FinishPull(d) =>
      WithDevice(s, d, s.devices[d].(cursor := AdvanceCursor(s.devices[d].cursor, s.devices[d].phase.page.watermark), phase := Resting))
    case PullFails(d) => WithDevice(s, d, s.devices[d].(phase := Resting))
    case PurgeTombstones =>
      var server := Purge(s.server, s.user, s.clock);
      s.(server := server,
         past := s.past.(purged := Raise(s.past.purged, PurgedNow(s.server, s.user, s.clock)),
                         letGo := Raise(s.past.letGo, OwnRows(s.server.rows, s.user) - server.rows.Keys)))
    case ForgetOps(ops) => s.(server := s.server.(ops := s.server.ops - ops))
  }

  /** A new account: no rows, no devices, no logged operations of the user, nothing has happened. */
  ghost predicate Start(s: System) {
    && s.devices == map[] && s.past == NO_HISTORY && Sound(s.check) && s.clock >= 0
    && (forall k :: k in s.server.rows ==> s.server.rows[k].owner != s.user)
    && (forall d :: d in s.server.devices ==> s.server.devices[d].owner != s.user)
    && (forall o :: (s.user, o) !in s.server.ops)
  }

  ghost predicate Runs(s: System, steps: seq<Step>)
    decreases |steps|
  {
    steps == [] || (Enabled(s, steps[0]) && Runs(Do(s, steps[0]), steps[1..]))
  }

  ghost function Run(s: System, steps: seq<Step>): System
    requires Runs(s, steps)
    decreases |steps|
  {
    if steps == [] then s else Run(Do(s, steps[0]), steps[1..])
  }

  // ----- a pull may always start -----

  lemma ServedSeqsSound(s: Server, user: Id, device: Id, m: Mutation, hard: bool, env: Env)
    requires SeqsSound(s, user)
    ensures SeqsSound(ApplyOp(s, user, device, m, hard, env).0, user)
  {
    if ApplyMutation(s, user, device, m, env.now, hard).Commit? {
      ApplyAdvances(s, user, device, m, env.now, hard);
    }
  }

  lemma FewerRowsSound(s: Server, s1: Server, user: Id)
    requires SeqsSound(s, user) && s1.seqs == s.seqs
    requires forall k :: k in s1.rows ==> k in s.rows && s1.rows[k] == s.rows[k]
    ensures SeqsSound(s1, user)
  {
  }

  lemma ServeNextKeepsSeqs(s: System, d: Id, hard: bool, fault: Fault)
    requires Enabled(s, ServeNext(d, hard, fault)) && SeqsSound(s.server, s.user)
    ensures SeqsSound(DoServeNext(s, d, hard, fault).server, s.user)
  {
    var p := s.devices[d].phase;
    ServedSeqsSound(s.server, s.user, d, p.admitted[p.done], hard, Env(s.clock, fault));
  }

  /** No step disturbs the order of the user's sequences. */
  lemma StepKeepsSeqs(s: System, step: Step)
    requires Enabled(s, step) && SeqsSound(s.server, s.user)
    ensures Do(s, step).user == s.user && SeqsSound(Do(s, step).server, s.user)
  {
    if step.ServeNext? {
      ServeNextKeepsSeqs(s, step.d, step.hard, step.fault);
    } else if step.Straggler? {
      ServedSeqsSound(s.server, s.user, step.d, ClampMutationTimes(step.m, s.clock), step.hard, Env(s.clock, step.fault));
    } else {
      FewerRowsSound(s.server, Do(s, step).server, s.user);
    }
  }

  lemma {:induction false} RunKeepsSeqs(s: System, steps: seq<Step>)
    requires Runs(s, steps) && SeqsSound(s.server, s.user)
    ensures SeqsSound(Run(s, steps).server, Run(s, steps).user)
    decreases |steps|
  {
    if steps != [] {
      StepKeepsSeqs(s, steps[0]);
      RunKeepsSeqs(Do(s, steps[0]), steps[1..]);
    }
  }

  /** In every run from a new account, whatever its steps, a resting device may pull. */
  lemma PullNeverBlocks(s: System, steps: seq<Step>, d: Id, limit: nat)
    requires Start(s) && Runs(s, steps) && limit >= 1
    requires d in Run(s, steps).devices && Run(s, steps).devices[d].phase.Resting?
    ensures Enabled(Run(s, steps), StartPull(d, Run(s, steps).devices[d].cursor, limit))
  {
    RunKeepsSeqs(s, steps);
  }
}
