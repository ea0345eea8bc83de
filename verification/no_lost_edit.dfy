// No change is lost: whatever the interleaving, lost acks, replays and late duplicates, every edit and
// every delete ever made on a device is still held for the server, or is accounted for by name.

module NoLostEdit {
  import opened SyncTypes
  import opened LastWriteWins
  import opened ServerApply
  import opened Validation
  import opened PushBatch
  import opened Devices
  import opened Paging
  import opened Outbox
  import opened ClientPull
  import opened PullDelta
  import opened SyncSystem
  import opened AdmittedBatch

  /** The delta under way has not reached the record yet. */
  predicate Coming(dev: Device, k: Key) {
    IsApplying(dev)
    && exists i :: dev.phase.next <= i < |dev.phase.page.records| && dev.phase.page.records[i].key == k
  }

  /** A rename the ack reports concerns no operation but those the ack accepts. */
  predicate Benign(dev: Device)
    requires dev.phase.Pushing?
  {
    forall c :: c in dev.phase.ack.conflicts ==>
      var k := Key(Topics, c.topicId);
      var hit := FindByRecord(dev.phase.items, c.topicId);
      && (k in dev.queue ==> dev.queue[k] in dev.phase.items && dev.queue[k].opId in dev.phase.ack.accepted)
      && (hit.Some? ==> hit.value.opId in dev.phase.ack.accepted)
  }

  /** The hypotheses on single steps: a device clock is at most the skew ahead of the server's, no edit
      is made to a record that the delta under way still has to come to, and renames are benign. */
  predicate Mild(s: System, step: Step) {
    match step
    case Edit(d, k, _, at, _) => at <= s.clock + MAX_FUTURE_SKEW_MS && d in s.devices && !Coming(s.devices[d], k)
    case Remove(_, _, at, _) => at <= s.clock + MAX_FUTURE_SKEW_MS
    case AckArrives(d, _) => d in s.devices && s.devices[d].phase.Pushing? && Benign(s.devices[d])
    case _ => true
  }

  ghost predicate MildRun(s: System, steps: seq<Step>)
    requires Runs(s, steps)
    decreases |steps|
  {
    steps == [] || (Mild(s, steps[0]) && MildRun(Do(s, steps[0]), steps[1..]))
  }

  /** The server stores a version of the record at least this new, live or deleted, or it stored one
      and then removed it or set it back. */
  predicate Dominated(s: System, k: Key, at: Time) {
    (k in s.server.rows && s.server.rows[k].owner == s.user && s.server.rows[k].updatedAt >= at)
    || (k in s.past.letGo && s.past.letGo[k] >= at)
  }

  /** The change needs no delivery any more: the server has or had a version at least as new; or it is an
      edit whose row fell with a topic the device saw deleted; or a delete that the server logged while it
      did not store the record. */
  predicate Resolved(s: System, o: Id, c: Change) {
    Dominated(s, c.k, c.at)
    || (c.operation.Upsert? && o in s.past.fallen)
    || (c.operation.Delete? && o in s.past.unknown)
  }

  /** The device will send the change exactly as it was made. */
  predicate Holds(dev: Device, o: Id, c: Change) {
    && c.k in dev.queue && dev.queue[c.k].opId == o && dev.queue[c.k].operation == c.operation
    && (c.operation.Upsert? ==> c.body.Some? && c.k in dev.rows && dev.rows[c.k] == Local(c.body.value, c.at))
    && (c.operation.Delete? ==> dev.queue[c.k].createdAt == c.at)
  }

  /** It is the device's latest change to the record. */
  predicate Latest(s: System, o: Id, c: Change) {
    (c.d, c.k) in s.past.lastOp && s.past.lastOp[(c.d, c.k)] == o
  }

  predicate Accounted(s: System, o: Id, c: Change) {
    || !Latest(s, o, c) || o in s.past.left
    || (c.d, o) in s.past.failed || Resolved(s, o, c) || (c.operation.Delete? && o in s.past.cancelled)
    || (c.d in s.devices && Holds(s.devices[c.d], o, c))
  }

  // ----- the invariant -----

  predicate WithinLimit(s: System, at: Time) {
    at <= s.clock + MAX_FUTURE_SKEW_MS
  }

  /** A known operation, of this device, on this record, of this kind. */
  predicate Made(s: System, o: Id, d: Id, k: Key, operation: Operation) {
    o in s.past.changes && s.past.changes[o].d == d && s.past.changes[o].k == k && s.past.changes[o].operation == operation
  }

  predicate ItemSafe(s: System, d: Id, dev: Device, k: Key)
    requires k in dev.queue
  {
    var item := dev.queue[k];
    && item.key == k && WithinLimit(s, item.createdAt) && Made(s, item.opId, d, k, item.operation)
    && (d, k) in s.past.lastOp && s.past.lastOp[(d, k)] == item.opId && item.opId !in s.past.cancelled
    && var c := s.past.changes[item.opId];
       (item.operation.Delete? ==> item.createdAt == c.at)
       && (item.operation.Upsert? ==>
             (c.body.Some? && k in dev.rows && dev.rows[k] == Local(c.body.value, c.at)) || Resolved(s, item.opId, c))
  }

  /** The delta's view of a record still to come is accurate where there is a row. */
  predicate ViewOf(rows: map<Key, Local>, known: map<Key, Time>, k: Key) {
    k in rows ==> k in known && known[k] == rows[k].updatedAt
  }

  ghost predicate PageSafe(s: System, rows: map<Key, Local>, page: Page, next: nat, known: Option<map<Key, Time>>) {
    && next <= |page.records|
    && (forall i, j :: 0 <= i < j < |page.records| ==> page.records[i].key != page.records[j].key)
    && (forall r :: r in page.records ==> WithinLimit(s, r.row.updatedAt) && Dominated(s, r.key, r.row.updatedAt))
    && (known.Some? ==> forall i :: next <= i < |page.records| ==> ViewOf(rows, known.value, page.records[i].key))
  }

  ghost predicate PushSafe(s: System, d: Id, queue: Queue, p: Phase)
    requires p.Pushing?
  {
    && DistinctItems(p.items) && Current(queue, p.items)
    && (forall item :: item in p.items ==> item.opId in s.past.changes)
    && (forall m :: m in p.request ==> (d, m) in s.past.sent)
    && (forall m :: m in p.admitted ==> (d, m) in s.past.sent && s.check(m).None?)
    && (forall o :: o in p.ack.accepted ==> o in s.past.accepted)
    && (forall c :: c in p.ack.conflicts ==> WithinLimit(s, c.updatedAt))
  }

  ghost predicate PhaseSafe(s: System, d: Id, dev: Device) {
    match dev.phase
    case Resting => true
    case Pushing(_, _, _, _, _) => PushSafe(s, d, dev.queue, dev.phase)
    case Pulling(page, _, _, next, known) => PageSafe(s, dev.rows, page, next, known)
  }

  ghost predicate DeviceSafe(s: System, d: Id, dev: Device) {
    && d != ""
    && (forall k :: k in dev.rows ==> WithinLimit(s, dev.rows[k].updatedAt))
    && (forall k :: k in dev.queue ==> ItemSafe(s, d, dev, k))
    && PhaseSafe(s, d, dev)
  }

  predicate SentSafe(s: System, x: (Id, Mutation)) {
    && x.0 != "" && WithinSkew(x.1, s.clock)
    && Made(s, x.1.opId, x.0, x.1.key, x.1.operation)
    && var c := s.past.changes[x.1.opId];
       (x.1.operation.Delete? ==> x.1.updatedAt == c.at)
       && (x.1.operation.Upsert? ==>
             && x.1.payload.Some? && x.1.payload.value.updatedAt == x.1.updatedAt
             && (x.1.updatedAt >= c.at || Resolved(s, x.1.opId, c)))
  }

  /** A delete that cancelled the edit of a record never sent before: its device never sent it since. */
  ghost predicate CleanCancel(s: System, o: Id, c: Change) {
    Latest(s, o, c) && o in s.past.cancelled && !s.past.cancelled[o] ==>
      forall x :: x in s.past.sent && x.1.key == c.k ==> x.0 != c.d
  }

  ghost predicate ChangeSafe(s: System, o: Id, c: Change) {
    (c.d, c.k) in s.past.lastOp && Accounted(s, o, c) && CleanCancel(s, o, c)
  }

  ghost predicate ServerSafe(s: System) {
    && s.clock >= 0
    && (forall k :: k in s.server.rows && s.server.rows[k].owner == s.user ==>
          WithinLimit(s, s.server.rows[k].updatedAt) && EverSent(s, k))
    && (forall o :: (s.user, o) in s.server.ops ==> o in s.past.accepted)
    && (forall o :: o in s.past.accepted ==> o in s.past.changes && Resolved(s, o, s.past.changes[o]))
    && s.past.cancelled.Keys <= s.past.changes.Keys
  }

  ghost predicate Invariant(s: System) {
    && Sound(s.check) && ServerSafe(s)
    && (forall x :: x in s.past.sent ==> SentSafe(s, x))
    && (forall d :: d in s.devices ==> DeviceSafe(s, d, s.devices[d]))
    && (forall o :: o in s.past.changes ==> ChangeSafe(s, o, s.past.changes[o]))
  }

  // ----- frames -----

  /** Nothing that was settled is unsettled. */
  ghost predicate Later(s: System, s1: System) {
    && s1.user == s.user && s1.check == s.check && s1.clock >= s.clock && s.past.sent <= s1.past.sent
    && (forall o :: o in s.past.changes ==> o in s1.past.changes && s1.past.changes[o] == s.past.changes[o])
    && s.past.failed <= s1.past.failed && s.past.accepted <= s1.past.accepted && s.past.left <= s1.past.left
    && s.past.fallen <= s1.past.fallen && s.past.unknown <= s1.past.unknown
    && (forall o :: o in s.past.cancelled ==> o in s1.past.cancelled && s1.past.cancelled[o] == s.past.cancelled[o])
    && (forall k, at :: Dominated(s, k, at) ==> Dominated(s1, k, at))
  }

  /** What the history says of a device's own queue is as before. */
  ghost predicate SameFor(s: System, s1: System, d: Id, queue: Queue) {
    && (forall k :: k in queue && (d, k) in s.past.lastOp ==> (d, k) in s1.past.lastOp && s1.past.lastOp[(d, k)] == s.past.lastOp[(d, k)])
    && (forall o :: o in s1.past.cancelled ==> o in s.past.cancelled || o !in s.past.changes)
  }

  lemma ItemKept(s: System, s1: System, d: Id, dev: Device, k: Key)
    requires k in dev.queue && ItemSafe(s, d, dev, k) && Later(s, s1) && SameFor(s, s1, d, dev.queue)
    ensures ItemSafe(s1, d, dev, k)
  {
  }

  lemma PhaseKept(s: System, s1: System, d: Id, dev: Device)
    requires PhaseSafe(s, d, dev) && Later(s, s1)
    ensures PhaseSafe(s1, d, dev)
  {
  }

  lemma DeviceKept(s: System, s1: System, d: Id, dev: Device)
    requires DeviceSafe(s, d, dev) && Later(s, s1) && SameFor(s, s1, d, dev.queue)
    ensures DeviceSafe(s1, d, dev)
  {
    forall k | k in dev.queue ensures ItemSafe(s1, d, dev, k) {
      ItemKept(s, s1, d, dev, k);
    }
    PhaseKept(s, s1, d, dev);
  }

  lemma SentKept(s: System, s1: System, x: (Id, Mutation))
    requires SentSafe(s, x) && Later(s, s1)
    ensures SentSafe(s1, x)
  {
  }

  function RowAt(rows: map<Key, Local>, k: Key): Option<Local> {
    if k in rows then Some(rows[k]) else None
  }

  /** The change's device still has it as it had, or the change was superseded or left behind. */
  predicate SameHold(s: System, s1: System, o: Id, c: Change) {
    o in s1.past.left || !Latest(s1, o, c)
    || (c.d in s.devices ==>
          (c.d in s1.devices && At(s1.devices[c.d].queue, c.k) == At(s.devices[c.d].queue, c.k)
           && RowAt(s1.devices[c.d].rows, c.k) == RowAt(s.devices[c.d].rows, c.k)))
  }

  lemma AccountedKept(s: System, s1: System, o: Id, c: Change)
    requires Accounted(s, o, c) && Later(s, s1) && SameHold(s, s1, o, c)
    requires Latest(s1, o, c) ==> Latest(s, o, c)
    ensures Accounted(s1, o, c)
  {
    if Latest(s1, o, c) && c.d in s.devices && Holds(s.devices[c.d], o, c) && o !in s1.past.left {
      assert At(s1.devices[c.d].queue, c.k) == At(s.devices[c.d].queue, c.k);
      assert RowAt(s1.devices[c.d].rows, c.k) == RowAt(s.devices[c.d].rows, c.k);
    }
  }

  /** No device sent anything new, and no change became the latest that was not. */
  lemma CleanKept(s: System, s1: System, o: Id, c: Change)
    requires CleanCancel(s, o, c) && o in s.past.changes && s1.past.sent == s.past.sent
    requires Latest(s1, o, c) ==> Latest(s, o, c)
    requires o in s1.past.cancelled ==> o in s.past.cancelled && s1.past.cancelled[o] == s.past.cancelled[o]
    ensures CleanCancel(s1, o, c)
  {
  }

  /** No new changes and no new requests; every change is held as before, or otherwise accounted for. */
  ghost predicate SameChanges(s: System, s1: System) {
    s1.past.sent == s.past.sent && s1.past.changes == s.past.changes && s1.past.lastOp == s.past.lastOp
    && s1.past.cancelled == s.past.cancelled
  }

  lemma ChangesKept(s: System, s1: System)
    requires Invariant(s) && Later(s, s1) && SameChanges(s, s1)
    requires forall o :: o in s.past.changes ==>
      SameHold(s, s1, o, s.past.changes[o]) || Accounted(s1, o, s.past.changes[o])
    ensures forall o :: o in s1.past.changes ==> ChangeSafe(s1, o, s1.past.changes[o])
    ensures forall x :: x in s1.past.sent ==> SentSafe(s1, x)
  {
    forall o | o in s1.past.changes ensures ChangeSafe(s1, o, s1.past.changes[o]) {
      var c := s.past.changes[o];
      assert ChangeSafe(s, o, c);
      if !Accounted(s1, o, c) { AccountedKept(s, s1, o, c); }
      CleanKept(s, s1, o, c);
    }
    forall x | x in s1.past.sent ensures SentSafe(s1, x) {
      SentKept(s, s1, x);
    }
  }

  lemma DevicesKept(s: System, s1: System, d: Id)
    requires Invariant(s) && Later(s, s1) && SameChanges(s, s1)
    requires forall e :: e in s1.devices && e != d ==> e in s.devices && s1.devices[e] == s.devices[e]
    requires d in s1.devices ==> DeviceSafe(s1, d, s1.devices[d])
    ensures forall e :: e in s1.devices ==> DeviceSafe(s1, e, s1.devices[e])
  {
    forall e | e in s1.devices ensures DeviceSafe(s1, e, s1.devices[e]) {
      if e != d { DeviceKept(s, s1, e, s1.devices[e]); }
    }
  }

  /** The history only gained failures, fallen changes and departures. */
  ghost predicate MoreEnded(h: History, h1: History) {
    h1 == h.(failed := h1.failed, fallen := h1.fallen, left := h1.left, purged := h1.purged)
    && h.failed <= h1.failed && h.fallen <= h1.fallen && h.left <= h1.left
  }

  lemma RowsStay(s: System, s1: System)
    requires s1.user == s.user && s1.check == s.check && s1.clock >= s.clock && s1.server.rows == s.server.rows
    requires MoreEnded(s.past, s1.past)
    ensures Later(s, s1) && SameChanges(s, s1)
  {
  }

  lemma ServerKept(s: System, s1: System)
    requires ServerSafe(s) && Later(s, s1)
    requires s1.server.ops <= s.server.ops && s1.past.accepted == s.past.accepted
    requires s1.past.cancelled.Keys <= s1.past.changes.Keys
    requires forall k :: k in s1.server.rows ==> k in s.server.rows && s1.server.rows[k] == s.server.rows[k]
    ensures ServerSafe(s1)
  {
    forall k | k in s1.server.rows && s1.server.rows[k].owner == s.user ensures EverSent(s1, k) {
      assert EverSent(s, k);
      var x :| x in s.past.sent && x.1.key == k;
      assert x in s1.past.sent;
    }
  }

  /** Only one device changed, neither by a local change nor by a new request. */
  lemma OneDevice(s: System, s1: System, d: Id)
    requires Invariant(s) && d in s.devices && d in s1.devices
    requires s1 == s.(devices := s.devices[d := s1.devices[d]], past := s1.past)
    requires MoreEnded(s.past, s1.past)
    requires DeviceSafe(s1, d, s1.devices[d])
    requires forall o :: o in s.past.changes && s.past.changes[o].d == d ==>
      SameHold(s, s1, o, s.past.changes[o]) || Accounted(s1, o, s.past.changes[o])
    ensures Invariant(s1)
  {
    RowsStay(s, s1);
    ChangesKept(s, s1);
    DevicesKept(s, s1, d);
    ServerKept(s, s1);
  }

  /** Only the phase or the cursor of one device changed. */
  lemma PhaseMoved(s: System, s1: System, d: Id)
    requires Invariant(s) && d in s.devices && d in s1.devices
    requires s1 == s.(devices := s.devices[d := s.devices[d].(phase := s1.devices[d].phase, cursor := s1.devices[d].cursor)])
    requires PhaseSafe(s1, d, s1.devices[d])
    ensures Invariant(s1)
  {
    RowsStay(s, s1);
    forall k | k in s1.devices[d].queue ensures ItemSafe(s1, d, s1.devices[d], k) {
      assert ItemSafe(s, d, s.devices[d], k);
    }
    OneDevice(s, s1, d);
  }

  // ----- local changes -----

  lemma EnqueueShape(q: Queue, inFlight: set<Id>, k: Key, operation: Operation, opId: Id, now: Time, j: Key)
    ensures var q1 := Enqueue(q, inFlight, k, operation, opId, now);
      && (j != k ==> At(q1, j) == At(q, j))
      && (k in q1 ==> q1[k].key == k && q1[k].opId == opId && q1[k].operation == operation
                      && (q1[k].createdAt == now || (k in q && q1[k].createdAt == q[k].createdAt)))
      && (operation.Upsert? ==> k in q1)
  {
  }

  /** A change was made: it is recorded as the latest, and queued in place of what was queued before or
      cancelled out with it; other records' rows and operations are as they were. */
  ghost predicate Recorded(s: System, s1: System, o: Id, c: Change) {
    && c.d in s.devices && c.d in s1.devices && o !in s.past.changes
    && s1 == s.(devices := s.devices[c.d := s1.devices[c.d]], past := s1.past)
    && s1.past == s.past.(changes := s.past.changes[o := c], lastOp := s.past.lastOp[(c.d, c.k) := o], cancelled := s1.past.cancelled)
    && s1.past.cancelled == (if c.k in s1.devices[c.d].queue then s.past.cancelled else s.past.cancelled[o := EverSent(s, c.k)])
    && s1.devices[c.d].phase == s.devices[c.d].phase
    && (forall j :: j != c.k ==> At(s1.devices[c.d].queue, j) == At(s.devices[c.d].queue, j))
    && (forall j :: j != c.k ==> RowAt(s1.devices[c.d].rows, j) == RowAt(s.devices[c.d].rows, j))
    && (if c.k in s1.devices[c.d].queue
        then Holds(s1.devices[c.d], o, c) && WithinLimit(s, s1.devices[c.d].queue[c.k].createdAt)
             && s1.devices[c.d].queue[c.k].key == c.k
        else c.operation.Delete?)
    && (c.k in s1.devices[c.d].rows ==> WithinLimit(s, s1.devices[c.d].rows[c.k].updatedAt))
  }

  lemma RecordedIsLater(s: System, s1: System, o: Id, c: Change)
    requires Invariant(s) && Recorded(s, s1, o, c)
    ensures Later(s, s1) && o !in s.past.cancelled
    ensures forall p :: p in s1.past.cancelled ==> p in s.past.cancelled || p == o
  {
    assert o !in s.past.cancelled.Keys;
  }

  lemma RecordedKeepsChanges(s: System, s1: System, o: Id, c: Change, p: Id)
    requires Invariant(s) && Recorded(s, s1, o, c) && p in s1.past.changes
    ensures ChangeSafe(s1, p, s1.past.changes[p])
  {
    RecordedIsLater(s, s1, o, c);
    if p != o {
      var e := s.past.changes[p];
      assert ChangeSafe(s, p, e);
      assert Latest(s1, p, e) ==> Latest(s, p, e) && !(e.d == c.d && e.k == c.k);
      if e.d == c.d && e.k != c.k {
        assert At(s1.devices[e.d].queue, e.k) == At(s.devices[e.d].queue, e.k);
        assert RowAt(s1.devices[e.d].rows, e.k) == RowAt(s.devices[e.d].rows, e.k);
      }
      AccountedKept(s, s1, p, e);
      CleanKept(s, s1, p, e);
    } else if !EverSent(s, c.k) {
      assert forall x :: x in s1.past.sent ==> x.1.key != c.k;
    }
  }

  lemma RecordedKeepsItem(s: System, s1: System, o: Id, c: Change, j: Key)
    requires Invariant(s) && Recorded(s, s1, o, c) && j in s1.devices[c.d].queue
    ensures ItemSafe(s1, c.d, s1.devices[c.d], j)
  {
    RecordedIsLater(s, s1, o, c);
    if j != c.k {
      assert At(s1.devices[c.d].queue, j) == At(s.devices[c.d].queue, j);
      assert RowAt(s1.devices[c.d].rows, j) == RowAt(s.devices[c.d].rows, j);
      assert DeviceSafe(s, c.d, s.devices[c.d]) && ItemSafe(s, c.d, s.devices[c.d], j);
    }
  }

  lemma RecordedKeepsPhase(s: System, s1: System, o: Id, c: Change)
    requires Invariant(s) && Recorded(s, s1, o, c)
    requires c.operation.Upsert? ==> !Coming(s.devices[c.d], c.k)
    requires c.operation.Delete? ==> c.k !in s1.devices[c.d].rows
    ensures PhaseSafe(s1, c.d, s1.devices[c.d])
  {
    RecordedIsLater(s, s1, o, c);
    var dev, dev1 := s.devices[c.d], s1.devices[c.d];
    assert DeviceSafe(s, c.d, dev);
    PhaseKept(s, s1, c.d, dev);
    if dev.phase.Pushing? {
      forall item | item in dev.phase.items && item.key in dev1.queue && dev1.queue[item.key].opId == item.opId
        ensures dev1.queue[item.key] == item
      {
        assert At(dev1.queue, item.key) == At(dev.queue, item.key);
      }
    } else if IsApplying(dev) {
      var p := dev.phase;
      forall i | p.next <= i < |p.page.records| ensures ViewOf(dev1.rows, p.known.value, p.page.records[i].key) {
        var j := p.page.records[i].key;
        assert ViewOf(dev.rows, p.known.value, j);
        if j != c.k { assert RowAt(dev1.rows, j) == RowAt(dev.rows, j); }
      }
    }
  }

  lemma RecordedKeepsDevice(s: System, s1: System, o: Id, c: Change)
    requires Invariant(s) && Recorded(s, s1, o, c) && PhaseSafe(s1, c.d, s1.devices[c.d])
    ensures DeviceSafe(s1, c.d, s1.devices[c.d])
  {
    assert DeviceSafe(s, c.d, s.devices[c.d]);
    forall j | j in s1.devices[c.d].queue ensures ItemSafe(s1, c.d, s1.devices[c.d], j) {
      RecordedKeepsItem(s, s1, o, c, j);
    }
    forall j | j in s1.devices[c.d].rows ensures WithinLimit(s1, s1.devices[c.d].rows[j].updatedAt) {
      if j != c.k { assert RowAt(s1.devices[c.d].rows, j) == RowAt(s.devices[c.d].rows, j); }
    }
  }

  lemma RecordedKeeps(s: System, s1: System, o: Id, c: Change)
    requires Invariant(s) && Recorded(s, s1, o, c) && PhaseSafe(s1, c.d, s1.devices[c.d])
    ensures Invariant(s1)
  {
    RecordedIsLater(s, s1, o, c);
    RecordedKeepsDevice(s, s1, o, c);
    forall p | p in s1.past.changes ensures ChangeSafe(s1, p, s1.past.changes[p]) {
      RecordedKeepsChanges(s, s1, o, c, p);
    }
    forall e | e in s1.devices ensures DeviceSafe(s1, e, s1.devices[e]) {
      if e != c.d { DeviceKept(s, s1, e, s.devices[e]); }
    }
    forall x | x in s1.past.sent ensures SentSafe(s1, x) {
      SentKept(s, s1, x);
    }
    ServerKept(s, s1);
  }

  lemma EditIsRecorded(s: System, d: Id, k: Key, body: Body, at: Time, o: Id)
    requires Invariant(s) && d in s.devices && o !in s.past.changes && WithinLimit(s, at)
    ensures Recorded(s, DoEdit(s, d, k, body, at, o), o, Change(d, k, Upsert, at, Some(body)))
  {
    var s1 := DoEdit(s, d, k, body, at, o);
    var dev := s.devices[d];
    assert DeviceSafe(s, d, dev);
    forall j ensures j != k ==> At(s1.devices[d].queue, j) == At(dev.queue, j) {
      EnqueueShape(dev.queue, InFlight(dev.phase), k, Upsert, o, at, j);
    }
    EnqueueShape(dev.queue, InFlight(dev.phase), k, Upsert, o, at, k);
    if k in dev.queue { assert ItemSafe(s, d, dev, k); }
  }

  lemma EditKeeps(s: System, d: Id, k: Key, body: Body, at: Time, o: Id)
    requires Invariant(s) && Enabled(s, Edit(d, k, body, at, o)) && Mild(s, Edit(d, k, body, at, o))
    ensures Invariant(DoEdit(s, d, k, body, at, o))
  {
    EditIsRecorded(s, d, k, body, at, o);
    var c := Change(d, k, Upsert, at, Some(body));
    RecordedKeepsPhase(s, DoEdit(s, d, k, body, at, o), o, c);
    RecordedKeeps(s, DoEdit(s, d, k, body, at, o), o, c);
  }

  lemma RemoveIsRecorded(s: System, d: Id, k: Key, at: Time, o: Id)
    requires Invariant(s) && d in s.devices && o !in s.past.changes && WithinLimit(s, at)
    ensures var s1 := DoRemove(s, d, k, at, o); Recorded(s, s1, o, s1.past.changes[o])
  {
    var s1 := DoRemove(s, d, k, at, o);
    var dev := s.devices[d];
    assert DeviceSafe(s, d, dev);
    forall j ensures j != k ==> At(s1.devices[d].queue, j) == At(dev.queue, j) {
      EnqueueShape(dev.queue, InFlight(dev.phase), k, Delete, o, at, j);
    }
    EnqueueShape(dev.queue, InFlight(dev.phase), k, Delete, o, at, k);
    if k in dev.queue { assert ItemSafe(s, d, dev, k); }
  }

  lemma RemoveKeeps(s: System, d: Id, k: Key, at: Time, o: Id)
    requires Invariant(s) && Enabled(s, Remove(d, k, at, o)) && Mild(s, Remove(d, k, at, o))
    ensures Invariant(DoRemove(s, d, k, at, o))
  {
    RemoveIsRecorded(s, d, k, at, o);
    var s1 := DoRemove(s, d, k, at, o);
    RecordedKeepsPhase(s, s1, o, s1.past.changes[o]);
    RecordedKeeps(s, s1, o, s1.past.changes[o]);
  }

  // ----- pushing -----

  /** The device's items as read: each is filed under its key. */
  lemma OutboxDistinct(s: System, d: Id, dev: Device, order: seq<Key>)
    requires DeviceSafe(s, d, dev) && IsQueueOrder(dev.queue, order)
    ensures DistinctItems(ItemsOf(dev.queue, order))
    ensures forall item :: item in ItemsOf(dev.queue, order) ==> item.key in dev.queue && dev.queue[item.key] == item
  {
    var items := ItemsOf(dev.queue, order);
    forall i | 0 <= i < |items| ensures ItemSafe(s, d, dev, order[i]) {
      assert order[i] in order;
    }
  }

  /** A mutation made from a queued item is as a sent one must be. */
  lemma MadeForItem(s: System, d: Id, dev: Device, m: Mutation, item: Item)
    requires DeviceSafe(s, d, dev) && item.key in dev.queue && dev.queue[item.key] == item
    requires MutationFor(item, dev.rows) == Some(m)
    ensures SentSafe(s, (d, m)) && m.opId == item.opId && m.key == item.key
  {
    assert ItemSafe(s, d, dev, item.key);
  }

  /** The batch is on the wire. */
  ghost predicate PutOnWire(s: System, s1: System, d: Id, b: Batch) {
    && d in s.devices && d in s1.devices
    && s1 == s.(devices := s.devices[d := s1.devices[d]], past := s.past.(sent := s1.past.sent))
    && s1.past.sent == s.past.sent + (set m | m in b.mutations :: (d, m))
    && s1.devices[d] == s.devices[d].(queue := s.devices[d].queue - b.dropped, phase := s1.devices[d].phase)
    && (forall m :: m in b.mutations ==> exists item :: item in b.items && MutationFor(item, s.devices[d].rows) == Some(m))
    && (forall item :: item in b.items ==> item.key in s.devices[d].queue && s.devices[d].queue[item.key] == item)
    && (forall k :: k in b.dropped ==> k !in s.devices[d].rows && k in s.devices[d].queue && s.devices[d].queue[k].operation.Upsert?)
  }

  lemma WireIsLater(s: System, s1: System, d: Id, b: Batch)
    requires PutOnWire(s, s1, d, b)
    ensures Later(s, s1)
    ensures forall e, q :: SameFor(s, s1, e, q)
  {
  }

  lemma WireKeepsSent(s: System, s1: System, d: Id, b: Batch, x: (Id, Mutation))
    requires Invariant(s) && PutOnWire(s, s1, d, b) && x in s1.past.sent
    ensures SentSafe(s1, x)
    ensures x !in s.past.sent ==> x.0 == d && (d, x.1.key) in s.past.lastOp && s.past.lastOp[(d, x.1.key)] !in s.past.cancelled
  {
    WireIsLater(s, s1, d, b);
    if x !in s.past.sent {
      var item :| item in b.items && MutationFor(item, s.devices[d].rows) == Some(x.1);
      MadeForItem(s, d, s.devices[d], x.1, item);
      assert ItemSafe(s, d, s.devices[d], item.key);
    }
    SentKept(s, s1, x);
  }

  /** What is sent now is no record whose latest change here was a cancelled one. */
  lemma WireKeepsClean(s: System, s1: System, d: Id, b: Batch, o: Id)
    requires Invariant(s) && PutOnWire(s, s1, d, b) && o in s.past.changes
    ensures CleanCancel(s1, o, s.past.changes[o])
  {
    var c := s.past.changes[o];
    assert ChangeSafe(s, o, c);
    forall x | x in s1.past.sent && x !in s.past.sent
      ensures x.0 == d && (d, x.1.key) in s.past.lastOp && s.past.lastOp[(d, x.1.key)] !in s.past.cancelled
    {
      WireKeepsSent(s, s1, d, b, x);
    }
  }

  lemma WireKeepsHold(s: System, s1: System, d: Id, b: Batch, o: Id, c: Change)
    requires PutOnWire(s, s1, d, b) && (c.d != d || c.k !in b.dropped)
    ensures SameHold(s, s1, o, c)
  {
  }

  lemma WireDropsUnheld(s: System, s1: System, d: Id, b: Batch, o: Id, c: Change)
    requires PutOnWire(s, s1, d, b) && c.d == d && c.k in b.dropped
    ensures !Holds(s.devices[d], o, c)
  {
  }

  lemma WireKeepsChange(s: System, s1: System, d: Id, b: Batch, o: Id)
    requires Invariant(s) && PutOnWire(s, s1, d, b) && o in s.past.changes
    ensures ChangeSafe(s1, o, s.past.changes[o])
  {
    var c := s.past.changes[o];
    WireIsLater(s, s1, d, b);
    assert ChangeSafe(s, o, c);
    if c.d == d && c.k in b.dropped {
      WireDropsUnheld(s, s1, d, b, o, c);
    } else {
      WireKeepsHold(s, s1, d, b, o, c);
      AccountedKept(s, s1, o, c);
    }
    WireKeepsClean(s, s1, d, b, o);
  }

  lemma StartPushIsOnWire(s: System, d: Id, order: seq<Key>, size: Mutation -> nat) returns (b: Batch)
    requires Invariant(s) && Enabled(s, StartPush(d, order, size))
    ensures PutOnWire(s, DoStartPush(s, d, order, size), d, b) && DistinctItems(b.items)
    ensures DoStartPush(s, d, order, size).devices[d].phase
         == if b.mutations == [] then Resting else NewRequest(b.items, b.mutations, s.clock, s.check)
  {
    var dev := s.devices[d];
    OutboxDistinct(s, d, dev, order);
    b := BatchFromOutbox(dev.queue, ItemsOf(dev.queue, order), dev.rows, s.clock, size);
  }

  /** A request made of sent operations is admitted as sent. */
  lemma RequestIsSafe(s: System, d: Id, items: seq<Item>, request: seq<Mutation>)
    requires forall m :: m in request ==> (d, m) in s.past.sent
    requires forall x :: x in s.past.sent ==> SentSafe(s, x)
    ensures var p := NewRequest(items, request, s.clock, s.check);
      (forall m :: m in p.admitted ==> (d, m) in s.past.sent && s.check(m).None?) && p.ack.accepted == [] && p.ack.conflicts == []
  {
    forall m | m in request ensures WithinSkew(m, s.clock) {
      assert SentSafe(s, (d, m));
    }
    AdmittedMembers(request, s.clock, s.check);
  }

  lemma WireKeepsDevice(s: System, s1: System, d: Id, b: Batch)
    requires Invariant(s) && PutOnWire(s, s1, d, b) && PhaseSafe(s1, d, s1.devices[d])
    ensures DeviceSafe(s1, d, s1.devices[d])
  {
    WireIsLater(s, s1, d, b);
    assert DeviceSafe(s, d, s.devices[d]);
    forall k | k in s1.devices[d].queue ensures ItemSafe(s1, d, s1.devices[d], k) {
      ItemKept(s, s1, d, s.devices[d], k);
    }
  }

  lemma WireKeepsPhase(s: System, s1: System, d: Id, b: Batch)
    requires Invariant(s) && PutOnWire(s, s1, d, b) && DistinctItems(b.items)
    requires s1.devices[d].phase == if b.mutations == [] then Resting else NewRequest(b.items, b.mutations, s.clock, s.check)
    ensures PhaseSafe(s1, d, s1.devices[d])
  {
    forall x | x in s1.past.sent ensures SentSafe(s1, x) {
      WireKeepsSent(s, s1, d, b, x);
    }
    RequestIsSafe(s1, d, b.items, b.mutations);
    assert DeviceSafe(s, d, s.devices[d]);
    forall item | item in b.items ensures item.opId in s1.past.changes {
      assert ItemSafe(s, d, s.devices[d], item.key);
    }
  }

  lemma WireKeeps(s: System, s1: System, d: Id, b: Batch)
    requires Invariant(s) && PutOnWire(s, s1, d, b) && PhaseSafe(s1, d, s1.devices[d])
    ensures Invariant(s1)
  {
    WireIsLater(s, s1, d, b);
    WireKeepsDevice(s, s1, d, b);
    forall x | x in s1.past.sent ensures SentSafe(s1, x) {
      WireKeepsSent(s, s1, d, b, x);
    }
    forall o | o in s1.past.changes ensures ChangeSafe(s1, o, s1.past.changes[o]) {
      WireKeepsChange(s, s1, d, b, o);
    }
    forall e | e in s1.devices ensures DeviceSafe(s1, e, s1.devices[e]) {
      if e != d { DeviceKept(s, s1, e, s.devices[e]); }
    }
    ServerKept(s, s1);
  }

  lemma StartPushKeeps(s: System, d: Id, order: seq<Key>, size: Mutation -> nat)
    requires Invariant(s) && Enabled(s, StartPush(d, order, size))
    ensures Invariant(DoStartPush(s, d, order, size))
  {
    var b := StartPushIsOnWire(s, d, order, size);
    WireKeepsPhase(s, DoStartPush(s, d, order, size), d, b);
    WireKeeps(s, DoStartPush(s, d, order, size), d, b);
  }

  lemma ResendKeeps(s: System, d: Id)
    requires Invariant(s) && Enabled(s, Resend(d))
    ensures Invariant(Do(s, Resend(d)))
  {
    assert DeviceSafe(s, d, s.devices[d]);
    RequestIsSafe(s, d, s.devices[d].phase.items, s.devices[d].phase.request);
    PhaseMoved(s, Do(s, Resend(d)), d);
  }

  // ----- serving -----

  /** No time in the user's rows passes `limit`. */
  ghost predicate TimesWithin(rows: map<Key, Row>, user: Id, limit: Time) {
    forall k :: k in rows && rows[k].owner == user ==> rows[k].updatedAt <= limit
  }

  lemma ApplyKeepsTimes(s: Server, user: Id, device: Id, m: Mutation, now: Time, hard: bool, limit: Time)
    requires ApplyMutation(s, user, device, m, now, hard).Commit?
    requires TimesWithin(s.rows, user, limit) && now <= limit && m.updatedAt <= limit
    requires PayloadOf(m).Some? ==> m.payload.value.updatedAt <= limit
    ensures TimesWithin(ApplyMutation(s, user, device, m, now, hard).server.rows, user, limit)
  {
  }

  /** No record but the pushed one appears. */
  lemma ApplyAddsOnlyIts(s: Server, user: Id, device: Id, m: Mutation, now: Time, hard: bool, k: Key)
    requires ApplyMutation(s, user, device, m, now, hard).Commit? && Addressed(m)
    requires k in ApplyMutation(s, user, device, m, now, hard).server.rows && k != m.key
    ensures k in s.rows && ApplyMutation(s, user, device, m, now, hard).server.rows[k].owner == s.rows[k].owner
  {
  }

  lemma OpLogGrowsByOne(s: Server, user: Id, device: Id, m: Mutation, hard: bool, env: Env)
    ensures var s1 := ApplyOp(s, user, device, m, hard, env).0;
      s.ops <= s1.ops <= s.ops + {(user, m.opId)}
    ensures ApplyOp(s, user, device, m, hard, env).1.Accepted? ==> (user, m.opId) in ApplyOp(s, user, device, m, hard, env).0.ops
  {
  }

  /** Either nothing happened, or the transaction committed and the server is what it left. */
  lemma ServedIsCommit(s: Server, user: Id, device: Id, m: Mutation, hard: bool, env: Env)
    ensures var s1 := ApplyOp(s, user, device, m, hard, env).0;
      var tx := ApplyMutation(s, user, device, m, env.now, hard);
      s1 == s || (tx.Commit? && s1 == tx.server)
    ensures (user, m.opId) in ApplyOp(s, user, device, m, hard, env).0.ops && (user, m.opId) !in s.ops ==>
      var tx := ApplyMutation(s, user, device, m, env.now, hard);
      tx.Commit? && ApplyOp(s, user, device, m, hard, env).0 == tx.server
  {
  }

  /** Whatever the server did, what it had stored it still stores, or has let go. */
  lemma ServedIsLater(s: System, server: Server, m: Mutation)
    ensures Later(s, Served(s, server, m)) && SameChanges(s, Served(s, server, m))
  {
    var s1 := Served(s, server, m);
    forall k, at | Dominated(s, k, at) ensures Dominated(s1, k, at) {
      var before, after := OwnRows(s.server.rows, s.user), OwnRows(server.rows, s.user);
      if k in before && before[k].updatedAt >= at && !(k in after && after[k].updatedAt >= at) {
        assert k in LetGo(before, after, m);
      }
    }
  }

  /** After a committed delete the server is past the record at the delete's time, or did not have it. */
  lemma DeleteTakesEffect(s: Server, user: Id, device: Id, m: Mutation, now: Time, hard: bool)
    requires m.operation.Delete? && ApplyMutation(s, user, device, m, now, hard).Commit? && now >= 0
    ensures var rows := ApplyMutation(s, user, device, m, now, hard).server.rows;
      m.key in s.rows ==>
        s.rows[m.key].owner == user
        && (m.key in rows ==> rows[m.key].owner == user && rows[m.key].updatedAt >= m.updatedAt)
  {
  }

  /** A newly logged operation is resolved. */
  lemma LoggedIsResolved(s: System, d: Id, m: Mutation, hard: bool, env: Env)
    requires ServerSafe(s) && SentSafe(s, (d, m)) && Addressed(m) && env.now == s.clock
    requires (s.user, m.opId) in ApplyOp(s.server, s.user, d, m, hard, env).0.ops && m.opId !in s.past.accepted
    ensures var s1 := Served(s, ApplyOp(s.server, s.user, d, m, hard, env).0, m);
      Resolved(s1, m.opId, s.past.changes[m.opId])
  {
    var server := ApplyOp(s.server, s.user, d, m, hard, env).0;
    var s1 := Served(s, server, m);
    ServedIsCommit(s.server, s.user, d, m, hard, env);
    ServedIsLater(s, server, m);
    if m.operation.Upsert? {
      ApplyDominates(s.server, s.user, d, m, env.now, hard);
    } else {
      DeleteTakesEffect(s.server, s.user, d, m, env.now, hard);
      if m.key in s.server.rows && m.key !in server.rows {
        var before, after := OwnRows(s.server.rows, s.user), OwnRows(server.rows, s.user);
        assert m.key in LetGo(before, after, m);
      }
    }
  }

  lemma ServedRowSafe(s: System, d: Id, m: Mutation, hard: bool, env: Env, k: Key)
    requires ServerSafe(s) && (d, m) in s.past.sent && SentSafe(s, (d, m)) && Addressed(m) && env.now == s.clock
    requires var rows := ApplyOp(s.server, s.user, d, m, hard, env).0.rows; k in rows && rows[k].owner == s.user
    ensures WithinLimit(s, ApplyOp(s.server, s.user, d, m, hard, env).0.rows[k].updatedAt) && EverSent(s, k)
  {
    ServedIsCommit(s.server, s.user, d, m, hard, env);
    if ApplyOp(s.server, s.user, d, m, hard, env).0 != s.server {
      ApplyKeepsTimes(s.server, s.user, d, m, env.now, hard, s.clock + MAX_FUTURE_SKEW_MS);
      if k != m.key { ApplyAddsOnlyIts(s.server, s.user, d, m, env.now, hard, k); }
    }
  }

  lemma ServedServerSafe(s: System, d: Id, m: Mutation, hard: bool, env: Env)
    requires ServerSafe(s) && (d, m) in s.past.sent && SentSafe(s, (d, m)) && Addressed(m) && env.now == s.clock
    ensures ServerSafe(Served(s, ApplyOp(s.server, s.user, d, m, hard, env).0, m))
  {
    var server := ApplyOp(s.server, s.user, d, m, hard, env).0;
    var s1 := Served(s, server, m);
    ServedIsLater(s, server, m);
    OpLogGrowsByOne(s.server, s.user, d, m, hard, env);
    forall k | k in server.rows && server.rows[k].owner == s.user ensures WithinLimit(s1, server.rows[k].updatedAt) && EverSent(s1, k) {
      ServedRowSafe(s, d, m, hard, env, k);
    }
    if (s.user, m.opId) in server.ops && m.opId !in s.past.accepted {
      LoggedIsResolved(s, d, m, hard, env);
    }
  }

  /** Serving one sent operation keeps the invariant: in particular an operation is logged only together
      with its effect. */
  lemma ServingIsSafe(s: System, d: Id, m: Mutation, hard: bool, env: Env)
    requires Invariant(s) && (d, m) in s.past.sent && s.check(m).None? && env.now == s.clock
    ensures Invariant(Served(s, ApplyOp(s.server, s.user, d, m, hard, env).0, m))
    ensures ApplyOp(s.server, s.user, d, m, hard, env).1.Accepted? ==>
      m.opId in Served(s, ApplyOp(s.server, s.user, d, m, hard, env).0, m).past.accepted
  {
    var server := ApplyOp(s.server, s.user, d, m, hard, env).0;
    var s1 := Served(s, server, m);
    assert SentSafe(s, (d, m));
    ServedIsLater(s, server, m);
    ServedServerSafe(s, d, m, hard, env);
    OpLogGrowsByOne(s.server, s.user, d, m, hard, env);
    if d in s.devices { DeviceKept(s, s1, d, s.devices[d]); }
    DevicesKept(s, s1, d);
    ChangesKept(s, s1);
  }

  lemma VerdictConflictIsNow(s: Server, user: Id, device: Id, m: Mutation, hard: bool, env: Env)
    ensures var verdict := ApplyOp(s, user, device, m, hard, env).1;
      verdict.Accepted? && verdict.conflict.Some? ==> verdict.conflict.value.updatedAt == env.now
  {
  }

  /** A verdict is noted on a device's ack. */
  lemma NotingKeeps(s: System, d: Id, opId: Id, verdict: Verdict)
    requires Invariant(s) && d in s.devices && s.devices[d].phase.Pushing?
    requires verdict.Accepted? ==> opId in s.past.accepted && (verdict.conflict.Some? ==> verdict.conflict.value.updatedAt == s.clock)
    ensures Invariant(Answered(s, d, Noted(s.devices[d].phase.ack, opId, verdict)))
  {
    var s1 := Answered(s, d, Noted(s.devices[d].phase.ack, opId, verdict));
    assert DeviceSafe(s, d, s.devices[d]);
    PhaseMoved(s, s1, d);
  }

  lemma ServeNextKeeps(s: System, d: Id, hard: bool, fault: Fault)
    requires Invariant(s) && Enabled(s, ServeNext(d, hard, fault))
    ensures Invariant(DoServeNext(s, d, hard, fault))
  {
    var p := s.devices[d].phase;
    var m := p.admitted[p.done];
    var env := Env(s.clock, fault);
    assert DeviceSafe(s, d, s.devices[d]) && m in p.admitted;
    ServingIsSafe(s, d, m, hard, env);
    VerdictConflictIsNow(s.server, s.user, d, m, hard, env);
    var (server, verdict) := ApplyOp(s.server, s.user, d, m, hard, env);
    NotingKeeps(Served(s, server, m), d, m.opId, verdict);
  }

  lemma StragglerKeeps(s: System, d: Id, m: Mutation, hard: bool, fault: Fault)
    requires Invariant(s) && Enabled(s, Straggler(d, m, hard, fault))
    ensures Invariant(DoStraggler(s, d, m, hard, fault))
  {
    assert SentSafe(s, (d, m));
    ClampExact(m, s.clock);
    ServingIsSafe(s, d, m, hard, Env(s.clock, fault));
  }

  // ----- acknowledgement -----

  lemma {:induction false} LastAboutIsOne(conflicts: seq<Conflict>, k: Key)
    ensures LastAbout(conflicts, k).Some? ==>
      LastAbout(conflicts, k).value in conflicts && Key(Topics, LastAbout(conflicts, k).value.topicId) == k
  {
    if conflicts != [] {
      LastAboutIsOne(conflicts[..|conflicts| - 1], k);
    }
  }

  /** Where a batch's ack leaves an operation in the outbox, it leaves it as it was but for its attempts,
      and leaves its row alone. */
  lemma LeftByAck(dev: Device, wake: Id -> Time, k: Key)
    requires dev.phase.Pushing? && Benign(dev) && k in dev.queue
    requires DistinctItems(dev.phase.items) && Current(dev.queue, dev.phase.items) && (forall j :: j in dev.queue ==> dev.queue[j].key == j)
    ensures var p := dev.phase;
      var after := At(ApplyAck(dev.queue, p.items, p.ack, wake), k);
      if after.Some? then
        after.value == dev.queue[k].(attempts := after.value.attempts, nextRetryAt := after.value.nextRetryAt)
        && RowAt(ApplyConflicts(dev.rows, p.ack.conflicts), k) == RowAt(dev.rows, k)
      else dev.queue[k].opId in p.ack.accepted || dev.queue[k].opId in FailedOps(p.items, p.ack.rejected)
  {
    var p := dev.phase;
    var item := dev.queue[k];
    AckIsFate(dev.queue, p.items, p.ack, wake, k);
    ConflictsRename(dev.rows, p.ack.conflicts, k);
    LastAboutIsOne(p.ack.conflicts, k);
    if Fate(dev.queue, p.items, p.ack, wake, k).None? && item.opId !in p.ack.accepted {
      var r :| r in p.ack.rejected && r.opId == item.opId && GivesUp(item, r);
      FindByOpFinds(p.items, item.opId);
      assert item.opId in FailedOps(p.items, p.ack.rejected);
    }
  }

  /** Nothing is queued by an ack. */
  lemma AckAddsNothing(dev: Device, wake: Id -> Time, k: Key)
    requires dev.phase.Pushing? && k !in dev.queue
    requires DistinctItems(dev.phase.items) && Current(dev.queue, dev.phase.items) && (forall j :: j in dev.queue ==> dev.queue[j].key == j)
    ensures k !in ApplyAck(dev.queue, dev.phase.items, dev.phase.ack, wake)
  {
    AckIsFate(dev.queue, dev.phase.items, dev.phase.ack, wake, k);
  }

  /** The ack as it acts on one device, and what the history notes. */
  ghost predicate Acknowledged(s: System, s1: System, d: Id, wake: Id -> Time) {
    && d in s.devices && d in s1.devices && s.devices[d].phase.Pushing? && Benign(s.devices[d])
    && var dev := s.devices[d];
       var failed := FailedOps(dev.phase.items, dev.phase.ack.rejected);
       s1 == s.(devices := s.devices[d := s1.devices[d]], past := s.past.(failed := s.past.failed + (set o | o in failed :: (d, o))))
       && s1.devices[d] == dev.(rows := ApplyConflicts(dev.rows, dev.phase.ack.conflicts),
                                queue := ApplyAck(dev.queue, dev.phase.items, dev.phase.ack, wake), phase := Resting)
  }

  lemma OutboxFiled(s: System, d: Id, dev: Device)
    requires DeviceSafe(s, d, dev) && dev.phase.Pushing?
    ensures DistinctItems(dev.phase.items) && Current(dev.queue, dev.phase.items) && forall j :: j in dev.queue ==> dev.queue[j].key == j
  {
    forall j | j in dev.queue ensures dev.queue[j].key == j { assert ItemSafe(s, d, dev, j); }
  }

  lemma AckKeepsItem(s: System, s1: System, d: Id, wake: Id -> Time, k: Key)
    requires Invariant(s) && Acknowledged(s, s1, d, wake) && k in s1.devices[d].queue
    ensures ItemSafe(s1, d, s1.devices[d], k)
  {
    var dev := s.devices[d];
    assert DeviceSafe(s, d, dev);
    OutboxFiled(s, d, dev);
    RowsStay(s, s1);
    if k !in dev.queue {
      AckAddsNothing(dev, wake, k);
    } else {
      LeftByAck(dev, wake, k);
      assert ItemSafe(s, d, dev, k);
      assert RowAt(s1.devices[d].rows, k) == RowAt(dev.rows, k);
    }
  }

  lemma AckKeepsRow(s: System, s1: System, d: Id, wake: Id -> Time, k: Key)
    requires Invariant(s) && Acknowledged(s, s1, d, wake) && k in s1.devices[d].rows
    ensures WithinLimit(s1, s1.devices[d].rows[k].updatedAt)
  {
    assert DeviceSafe(s, d, s.devices[d]);
    ConflictsRename(s.devices[d].rows, s.devices[d].phase.ack.conflicts, k);
    LastAboutIsOne(s.devices[d].phase.ack.conflicts, k);
  }

  lemma AckKeepsDevice(s: System, s1: System, d: Id, wake: Id -> Time)
    requires Invariant(s) && Acknowledged(s, s1, d, wake)
    ensures DeviceSafe(s1, d, s1.devices[d])
  {
    assert DeviceSafe(s, d, s.devices[d]);
    forall k | k in s1.devices[d].rows ensures WithinLimit(s1, s1.devices[d].rows[k].updatedAt) {
      AckKeepsRow(s, s1, d, wake, k);
    }
    forall k | k in s1.devices[d].queue ensures ItemSafe(s1, d, s1.devices[d], k) {
      AckKeepsItem(s, s1, d, wake, k);
    }
  }

  /** A change the device held is still held, or the server accepted it, or its failure is recorded. */
  lemma AckAccounts(s: System, s1: System, d: Id, wake: Id -> Time, o: Id, c: Change)
    requires Invariant(s) && Acknowledged(s, s1, d, wake) && c.d == d
    requires Accounted(s, o, c) && (o in s.past.accepted ==> Resolved(s, o, c))
    ensures Accounted(s1, o, c)
  {
    RowsStay(s, s1);
    var dev := s.devices[d];
    if Holds(dev, o, c) {
      assert DeviceSafe(s, d, dev);
      OutboxFiled(s, d, dev);
      LeftByAck(dev, wake, c.k);
      assert RowAt(dev.rows, c.k).Some? ==> c.k in dev.rows;
      if c.k in s1.devices[d].queue {
        assert At(s1.devices[d].queue, c.k).Some?;
        assert RowAt(s1.devices[d].rows, c.k) == RowAt(dev.rows, c.k);
        assert Holds(s1.devices[d], o, c);
      }
    }
  }

  lemma AckKeeps(s: System, d: Id, wake: Id -> Time)
    requires Invariant(s) && Enabled(s, AckArrives(d, wake)) && Mild(s, AckArrives(d, wake))
    ensures Invariant(DoAckArrives(s, d, wake))
  {
    HearingKeeps(s, d);
    AnswerKeeps(WithDevice(s, d, Hearing(s.devices[d])), d, wake);
  }

  /** As far as it takes effect, an answer is still one of the server's, and as benign. */
  lemma HearingKeeps(s: System, d: Id)
    requires Invariant(s) && d in s.devices && s.devices[d].phase.Pushing? && Benign(s.devices[d])
    ensures var s1 := WithDevice(s, d, Hearing(s.devices[d])); Invariant(s1) && Benign(s1.devices[d])
  {
    var s1 := WithDevice(s, d, Hearing(s.devices[d]));
    assert DeviceSafe(s, d, s.devices[d]);
    forall c | c in s1.devices[d].phase.ack.conflicts ensures c in s.devices[d].phase.ack.conflicts {
    }
    PhaseMoved(s, s1, d);
  }

  /** An answer taken as it stands. */
  lemma AnswerKeeps(s: System, d: Id, wake: Id -> Time)
    requires Invariant(s) && d in s.devices && s.devices[d].phase.Pushing? && Benign(s.devices[d])
    ensures Invariant(TakeAnswer(s, d, wake))
  {
    var s1 := TakeAnswer(s, d, wake);
    assert Acknowledged(s, s1, d, wake);
    AckKeepsDevice(s, s1, d, wake);
    forall o | o in s.past.changes && s.past.changes[o].d == d ensures Accounted(s1, o, s.past.changes[o]) {
      assert ChangeSafe(s, o, s.past.changes[o]);
      AckAccounts(s, s1, d, wake, o, s.past.changes[o]);
    }
    OneDevice(s, s1, d);
  }

  // ----- pulling -----

  /** A page just read: what it holds the server stores. */
  lemma NewPageSafe(s: System, s1: System, d: Id, since: nat, page: Page)
    requires Invariant(s) && d in s.devices
    requires forall r :: r in page.records ==>
      r.key in s.server.rows && s.server.rows[r.key] == r.row && r.row.owner == s.user
    requires forall i, j :: 0 <= i < j < |page.records| ==> page.records[i].key != page.records[j].key
    requires s1 == WithDevice(s, d, s.devices[d].(phase := Pulling(page, since, SeqOf(s.server, s.user), 0, None)))
    ensures Invariant(s1)
  {
    PhaseMoved(s, s1, d);
  }

  lemma StartPullKeeps(s: System, d: Id, since: nat, limit: nat)
    requires Invariant(s) && Enabled(s, StartPull(d, since, limit))
    ensures Invariant(Do(s, StartPull(d, since, limit)))
  {
    PageIsComplete(s.server, s.user, since, limit);
    NewPageSafe(s, Do(s, StartPull(d, since, limit)), d, since, PullPage(s.server, s.user, since, limit));
  }

  lemma BeginDeltaKeeps(s: System, d: Id)
    requires Invariant(s) && Enabled(s, BeginDelta(d))
    ensures Invariant(Do(s, BeginDelta(d)))
  {
    var s1 := Do(s, BeginDelta(d));
    var p := s1.devices[d].phase;
    assert DeviceSafe(s, d, s.devices[d]);
    forall i | p.next <= i < |p.page.records| ensures ViewOf(s1.devices[d].rows, p.known.value, p.page.records[i].key) {
    }
    PhaseMoved(s, s1, d);
  }

  /** One row under one record: as before, or replaced by the newer pulled version, or gone, with the
      pulled delete of its own that is newer or with its topic. */
  lemma RowUnderRecord(a: Applying, r: PageRow, readable: bool, k: Key)
    requires ApplyKnown(a, r, readable).Some? && ViewOf(a.rows, a.known, r.key)
    ensures var rows := ApplyKnown(a, r, readable).value.rows;
      && (k in rows ==> (k in a.rows && rows[k] == a.rows[k])
                        || (k == r.key && rows[k].updatedAt == r.row.updatedAt && (k in a.rows ==> a.rows[k].updatedAt < r.row.updatedAt)))
      && (k in a.rows && k !in rows && k == r.key ==> a.rows[k].updatedAt < r.row.updatedAt)
  {
  }

  lemma ViewsStay(a: Applying, r: PageRow, readable: bool, k: Key)
    requires ApplyKnown(a, r, readable).Some? && ViewOf(a.rows, a.known, k) && k != r.key
    ensures ViewOf(ApplyKnown(a, r, readable).value.rows, ApplyKnown(a, r, readable).value.known, k)
  {
  }

  /** One record of the delta was applied, and what fell with a topic was noted. */
  ghost predicate RecordApplied(s: System, s1: System, d: Id, r: PageRow, readable: bool) {
    && d in s.devices && d in s1.devices && IsApplying(s.devices[d])
    && s.devices[d].phase.next < |s.devices[d].phase.page.records| && r == s.devices[d].phase.page.records[s.devices[d].phase.next]
    && var dev := s.devices[d];
       var a := AppliedNext(dev, readable);
       a.Some?
       && s1 == s.(devices := s.devices[d := s1.devices[d]],
                   past := s.past.(fallen := s.past.fallen + FallenNow(s.past, d, dev.rows, a.value.rows, r)))
       && s1.devices[d] == dev.(rows := a.value.rows, phase := dev.phase.(next := dev.phase.next + 1, known := Some(a.value.known)))
  }

  lemma AppliedFacts(s: System, s1: System, d: Id, r: PageRow, readable: bool, k: Key)
    requires Invariant(s) && RecordApplied(s, s1, d, r, readable)
    ensures var rows, rows1 := s.devices[d].rows, s1.devices[d].rows;
      && WithinLimit(s, r.row.updatedAt) && Dominated(s, r.key, r.row.updatedAt)
      && (k in rows1 ==> (k in rows && rows1[k] == rows[k])
                         || (k == r.key && rows1[k].updatedAt == r.row.updatedAt && (k in rows ==> rows[k].updatedAt < r.row.updatedAt)))
      && (k in rows && k !in rows1 && k == r.key ==> rows[k].updatedAt < r.row.updatedAt)
  {
    var dev := s.devices[d];
    assert DeviceSafe(s, d, dev);
    assert PageSafe(s, dev.rows, dev.phase.page, dev.phase.next, dev.phase.known);
    assert r in dev.phase.page.records && ViewOf(dev.rows, dev.phase.known.value, r.key);
    RowUnderRecord(Applying(dev.rows, dev.phase.known.value, {}), r, readable, k);
  }

  lemma AppliedKeepsItem(s: System, s1: System, d: Id, r: PageRow, readable: bool, k: Key)
    requires Invariant(s) && RecordApplied(s, s1, d, r, readable) && k in s1.devices[d].queue
    ensures ItemSafe(s1, d, s1.devices[d], k)
  {
    RowsStay(s, s1);
    assert DeviceSafe(s, d, s.devices[d]) && ItemSafe(s, d, s.devices[d], k);
    AppliedFacts(s, s1, d, r, readable, k);
  }

  lemma AppliedKeepsPhase(s: System, s1: System, d: Id, r: PageRow, readable: bool)
    requires Invariant(s) && RecordApplied(s, s1, d, r, readable)
    ensures PhaseSafe(s1, d, s1.devices[d])
  {
    var dev, dev1 := s.devices[d], s1.devices[d];
    RowsStay(s, s1);
    assert DeviceSafe(s, d, dev);
    assert PageSafe(s, dev.rows, dev.phase.page, dev.phase.next, dev.phase.known);
    forall i | dev1.phase.next <= i < |dev1.phase.page.records|
      ensures ViewOf(dev1.rows, dev1.phase.known.value, dev1.phase.page.records[i].key)
    {
      ViewsStay(Applying(dev.rows, dev.phase.known.value, {}), r, readable, dev.phase.page.records[i].key);
    }
  }

  lemma AppliedKeepsDevice(s: System, s1: System, d: Id, r: PageRow, readable: bool)
    requires Invariant(s) && RecordApplied(s, s1, d, r, readable)
    ensures DeviceSafe(s1, d, s1.devices[d])
  {
    assert DeviceSafe(s, d, s.devices[d]);
    forall k | k in s1.devices[d].rows ensures WithinLimit(s1, s1.devices[d].rows[k].updatedAt) {
      AppliedFacts(s, s1, d, r, readable, k);
    }
    forall k | k in s1.devices[d].queue ensures ItemSafe(s1, d, s1.devices[d], k) {
      AppliedKeepsItem(s, s1, d, r, readable, k);
    }
    AppliedKeepsPhase(s, s1, d, r, readable);
  }

  /** An edit that a record overwrites is dominated by it; one whose row goes with its topic has fallen. */
  lemma AppliedAccounts(s: System, s1: System, d: Id, r: PageRow, readable: bool, o: Id, c: Change)
    requires Invariant(s) && RecordApplied(s, s1, d, r, readable) && c.d == d && Accounted(s, o, c)
    ensures Accounted(s1, o, c)
  {
    RowsStay(s, s1);
    AppliedFacts(s, s1, d, r, readable, c.k);
  }

  lemma ApplyNextKeeps(s: System, d: Id, readable: bool)
    requires Invariant(s) && Enabled(s, ApplyNext(d, readable))
    ensures Invariant(DoApplyNext(s, d, readable))
  {
    var s1 := DoApplyNext(s, d, readable);
    var r := s.devices[d].phase.page.records[s.devices[d].phase.next];
    assert RecordApplied(s, s1, d, r, readable);
    AppliedKeepsDevice(s, s1, d, r, readable);
    forall o | o in s.past.changes && s.past.changes[o].d == d ensures Accounted(s1, o, s.past.changes[o]) {
      assert ChangeSafe(s, o, s.past.changes[o]);
      AppliedAccounts(s, s1, d, r, readable, o, s.past.changes[o]);
    }
    OneDevice(s, s1, d);
  }

  // ----- devices, time and the purge -----

  lemma QuietKeeps(s: System, s1: System)
    requires Invariant(s)
    requires s1 == s.(server := s1.server, devices := s1.devices, clock := s1.clock, past := s1.past) && s1.clock >= s.clock
    requires s1.server == s.server.(ops := s1.server.ops, devices := s1.server.devices) && s1.server.ops <= s.server.ops
    requires MoreEnded(s.past, s1.past)
    requires forall d :: d in s1.devices ==> (d in s.devices && s1.devices[d] == s.devices[d]) || (d != "" && s1.devices[d] == EMPTY_DEVICE)
    requires forall o :: o in s.past.changes ==> SameHold(s, s1, o, s.past.changes[o])
    ensures Invariant(s1)
  {
    RowsStay(s, s1);
    ChangesKept(s, s1);
    forall d | d in s1.devices ensures DeviceSafe(s1, d, s1.devices[d]) {
      if s1.devices[d] != EMPTY_DEVICE { DeviceKept(s, s1, d, s.devices[d]); }
    }
    ServerKept(s, s1);
  }

  /** What a leaving device had not delivered is left behind. */
  lemma LeavingHolds(s: System, s1: System, d: Id, o: Id)
    requires Invariant(s) && s1.past == Leaving(s.past, d) && o in s.past.changes
    requires forall e :: e in s.devices && e != d ==> e in s1.devices && s1.devices[e] == s.devices[e]
    ensures SameHold(s, s1, o, s.past.changes[o])
  {
    var c := s.past.changes[o];
    if c.d == d && Latest(s1, o, c) {
      assert (d, c.k) in s.past.lastOp;
      assert o in s1.past.left;
    }
  }

  lemma LeaveKeeps(s: System, s1: System, d: Id)
    requires Invariant(s) && s1.past == Leaving(s.past, d)
    requires s1 == s.(server := s1.server, devices := s1.devices, past := s1.past)
    requires s1.server == s.server.(devices := s1.server.devices)
    requires forall e :: e in s1.devices ==> (e in s.devices && s1.devices[e] == s.devices[e]) || (e != "" && s1.devices[e] == EMPTY_DEVICE)
    requires forall e :: e in s.devices && e != d ==> e in s1.devices && s1.devices[e] == s.devices[e]
    ensures Invariant(s1)
  {
    forall o | o in s.past.changes ensures SameHold(s, s1, o, s.past.changes[o]) {
      LeavingHolds(s, s1, d, o);
    }
    QuietKeeps(s, s1);
  }

  /** What the purge removes it has let go. */
  lemma PurgeIsLater(s: System)
    ensures Later(s, Do(s, PurgeTombstones)) && SameChanges(s, Do(s, PurgeTombstones))
  {
    var s1 := Do(s, PurgeTombstones);
    var gone := OwnRows(s.server.rows, s.user) - s1.server.rows.Keys;
    forall k, at | Dominated(s, k, at) ensures Dominated(s1, k, at) {
      if k in OwnRows(s.server.rows, s.user) && k !in s1.server.rows { assert k in gone; }
    }
  }

  lemma PurgeKeeps(s: System)
    requires Invariant(s)
    ensures Invariant(Do(s, PurgeTombstones))
  {
    var s1 := Do(s, PurgeTombstones);
    PurgeIsLater(s);
    ChangesKept(s, s1);
    forall d | d in s1.devices ensures DeviceSafe(s1, d, s1.devices[d]) {
      DeviceKept(s, s1, d, s.devices[d]);
    }
    ServerKept(s, s1);
  }

  // ----- runs -----

  lemma RestKeeps(s: System, d: Id)
    requires Invariant(s) && d in s.devices
    ensures Invariant(WithDevice(s, d, s.devices[d].(phase := Resting)))
  {
    PhaseMoved(s, WithDevice(s, d, s.devices[d].(phase := Resting)), d);
  }

  lemma FinishPullKeeps(s: System, d: Id)
    requires Invariant(s) && Enabled(s, FinishPull(d))
    ensures Invariant(Do(s, FinishPull(d)))
  {
    PhaseMoved(s, Do(s, FinishPull(d)), d);
  }

  lemma ReportKeeps(s: System, d: Id)
    requires Invariant(s) && Enabled(s, ReportIn(d))
    ensures Invariant(Do(s, ReportIn(d)))
  {
    QuietKeeps(s, Do(s, ReportIn(d)));
  }

  lemma JoinKeeps(s: System, d: Id)
    requires Invariant(s) && Enabled(s, Join(d))
    ensures Invariant(Do(s, Join(d)))
  {
    LeaveKeeps(s, Do(s, Join(d)), d);
  }

  lemma RetireKeeps(s: System, d: Id)
    requires Invariant(s) && Enabled(s, Retire(d))
    ensures Invariant(Do(s, Retire(d)))
  {
    LeaveKeeps(s, Do(s, Retire(d)), d);
  }

  predicate IsPushStep(step: Step) {
    step.Edit? || step.Remove? || step.StartPush? || step.ServeNext? || step.Resend? || step.AckArrives? || step.PushFails?
    || step.Straggler?
  }

  lemma PushStepKeeps(s: System, step: Step)
    requires Invariant(s) && Enabled(s, step) && Mild(s, step) && IsPushStep(step)
    ensures Invariant(Do(s, step))
  {
    match step
    case Edit(d, k, body, at, opId) => EditKeeps(s, d, k, body, at, opId);
    case Remove(d, k, at, opId) => RemoveKeeps(s, d, k, at, opId);
    case StartPush(d, order, size) => StartPushKeeps(s, d, order, size);
    case ServeNext(d, hard, fault) => ServeNextKeeps(s, d, hard, fault);
    case Resend(d) => ResendKeeps(s, d);
    case AckArrives(d, wake) => AckKeeps(s, d, wake);
    case PushFails(d) => RestKeeps(s, d);
    case Straggler(d, m, hard, fault) => StragglerKeeps(s, d, m, hard, fault);
  }

  lemma OtherStepKeeps(s: System, step: Step)
    requires Invariant(s) && Enabled(s, step) && !IsPushStep(step)
    ensures Invariant(Do(s, step))
  {
    match step
    case StartPull(d, since, limit) => StartPullKeeps(s, d, since, limit);
    case BeginDelta(d) => BeginDeltaKeeps(s, d);
    case ApplyNext(d, readable) => ApplyNextKeeps(s, d, readable);
    case FinishPull(d) => FinishPullKeeps(s, d);
    case PullFails(d) => RestKeeps(s, d);
    case Retire(d) => RetireKeeps(s, d);
    case Join(d) => JoinKeeps(s, d);
    case PurgeTombstones => PurgeKeeps(s);
    case ReportIn(d) => ReportKeeps(s, d);
    case Tick(_) => QuietKeeps(s, Do(s, step));
    case ForgetOps(_) => QuietKeeps(s, Do(s, step));
  }

  /** Every step, in every state that keeps the invariant, keeps it. */
  lemma StepKeeps(s: System, step: Step)
    requires Invariant(s) && Enabled(s, step) && Mild(s, step)
    ensures Invariant(Do(s, step))
  {
    if IsPushStep(step) { PushStepKeeps(s, step); } else { OtherStepKeeps(s, step); }
  }

  lemma {:induction false} RunKeeps(s: System, steps: seq<Step>)
    requires Invariant(s) && Runs(s, steps) && MildRun(s, steps)
    ensures Invariant(Run(s, steps))
    decreases |steps|
  {
    if steps != [] {
      StepKeeps(s, steps[0]);
      RunKeeps(Do(s, steps[0]), steps[1..]);
    }
  }

  lemma StartIsSafe(s: System)
    requires Start(s)
    ensures Invariant(s)
  {
  }

  // ----- the theorems -----

  lemma ChangeAccounted(s: System, steps: seq<Step>, o: Id)
    requires Start(s) && Runs(s, steps) && MildRun(s, steps) && o in Run(s, steps).past.changes
    ensures ChangeSafe(Run(s, steps), o, Run(s, steps).past.changes[o]) && ServerSafe(Run(s, steps))
  {
    StartIsSafe(s);
    RunKeeps(s, steps);
  }

  /** In every run from a new account, every edit ever made is superseded by a later local change of its
      record, or left behind by its device, or recorded as failed, or matched by a version the server has
      or has let go at least as new, or its row fell with a topic that a pull deleted; or else its device
      still stores what it wrote and will send exactly that. */
  lemma NoEditIsLost(s: System, steps: seq<Step>, o: Id)
    requires Start(s) && Runs(s, steps) && MildRun(s, steps)
    requires o in Run(s, steps).past.changes && Run(s, steps).past.changes[o].operation.Upsert?
    ensures var s1 := Run(s, steps); var c := s1.past.changes[o];
      || !Latest(s1, o, c) || o in s1.past.left
      || (c.d, o) in s1.past.failed || Dominated(s1, c.k, c.at) || o in s1.past.fallen
      || (c.d in s1.devices && Holds(s1.devices[c.d], o, c))
  {
    ChangeAccounted(s, steps, o);
  }

  /** And every delete: superseded, left behind, failed, matched by a version or tombstone at least as new,
      logged while the server did not store the record, cancelled out with a queued edit, or still queued
      under its own time. */
  lemma NoDeleteIsLost(s: System, steps: seq<Step>, o: Id)
    requires Start(s) && Runs(s, steps) && MildRun(s, steps)
    requires o in Run(s, steps).past.changes && Run(s, steps).past.changes[o].operation.Delete?
    ensures var s1 := Run(s, steps); var c := s1.past.changes[o];
      || !Latest(s1, o, c) || o in s1.past.left
      || (c.d, o) in s1.past.failed || Dominated(s1, c.k, c.at) || o in s1.past.unknown || o in s1.past.cancelled
      || (c.d in s1.devices && Holds(s1.devices[c.d], o, c))
  {
    ChangeAccounted(s, steps, o);
  }

  /** A delete that cancelled out with an edit of a record never sent before is harmless: its device never
      sends the record again, and the server stores it only if another device sent it. */
  lemma CleanCancelIsHarmless(s: System, steps: seq<Step>, o: Id)
    requires Start(s) && Runs(s, steps) && MildRun(s, steps)
    requires var h := Run(s, steps).past; o in h.changes && o in h.cancelled && !h.cancelled[o]
    requires Latest(Run(s, steps), o, Run(s, steps).past.changes[o])
    ensures var s1 := Run(s, steps); var c := s1.past.changes[o];
      && (forall x :: x in s1.past.sent && x.1.key == c.k ==> x.0 != c.d)
      && (c.k in s1.server.rows && s1.server.rows[c.k].owner == s1.user ==> exists x :: x in s1.past.sent && x.1.key == c.k && x.0 != c.d)
  {
    ChangeAccounted(s, steps, o);
    var s1 := Run(s, steps);
    var c := s1.past.changes[o];
    if c.k in s1.server.rows && s1.server.rows[c.k].owner == s1.user {
      assert EverSent(s1, c.k);
      var x :| x in s1.past.sent && x.1.key == c.k;
      assert x.0 != c.d;
    }
  }

  /** When a device's outbox is empty and it never recorded a failure, the latest edit of each record has
      reached the server, at least as new, unless its row fell with a topic. */
  lemma DrainedMeansDelivered(s: System, steps: seq<Step>, d: Id, k: Key)
    requires Start(s) && Runs(s, steps) && MildRun(s, steps)
    requires d in Run(s, steps).devices && Run(s, steps).devices[d].queue == map[]
    requires var h := Run(s, steps).past;
      (d, k) in h.lastOp && h.lastOp[(d, k)] in h.changes && h.changes[h.lastOp[(d, k)]].operation.Upsert?
      && h.changes[h.lastOp[(d, k)]].d == d && h.changes[h.lastOp[(d, k)]].k == k
      && h.lastOp[(d, k)] !in h.left && (d, h.lastOp[(d, k)]) !in h.failed
    ensures var s1 := Run(s, steps); var o := s1.past.lastOp[(d, k)];
      Dominated(s1, k, s1.past.changes[o].at) || o in s1.past.fallen
  {
    NoEditIsLost(s, steps, Run(s, steps).past.lastOp[(d, k)]);
  }

  // ----- what the server lets go -----

  /** A transaction removes rows only by a hard delete, and takes a stored time back only when it renames
      a topic, which then carries the present time. */
  lemma ApplyLowersOnly(s: Server, user: Id, device: Id, m: Mutation, now: Time, hard: bool, k: Key)
    requires ApplyMutation(s, user, device, m, now, hard).Commit? && device != "" && Addressed(m) && k in s.rows
    ensures var rows := ApplyMutation(s, user, device, m, now, hard).server.rows;
      && (k !in rows ==> hard && m.operation.Delete? && Falls(s.rows, {m.key}, k) && s.rows[m.key].updatedAt <= DeleteTime(m, now))
      && (k in rows && rows[k].updatedAt < s.rows[k].updatedAt ==> rows[k].updatedAt == now && k.table.Topics? && m.key.table.Topics?)
      && (k in rows ==> rows[k].owner == s.rows[k].owner)
  {
    if m.operation.Upsert? && m.key in s.rows {
      ServerTieGoesToIncoming(s.rows[m.key].updatedAt, m.payload.value.updatedAt, device, m.payload.value.id);
    }
  }

  /** A record is newly counted as let go by the service of one operation only if the operation is a hard
      delete of it or of its topic, or it is a topic renamed just now whose stored time lay in the future. */
  lemma LetGoOnlyBy(s: System, d: Id, m: Mutation, hard: bool, env: Env, k: Key)
    requires d != "" && Addressed(m) && env.now == s.clock
    requires var s1 := Served(s, ApplyOp(s.server, s.user, d, m, hard, env).0, m);
      k in s1.past.letGo && (k in s.past.letGo ==> s1.past.letGo[k] != s.past.letGo[k])
    ensures var rows := ApplyOp(s.server, s.user, d, m, hard, env).0.rows;
      && k in s.server.rows && s.server.rows[k].owner == s.user
      && (if k in rows then k.table.Topics? && rows[k].updatedAt == s.clock < s.server.rows[k].updatedAt
          else hard && m.operation.Delete? && Falls(s.server.rows, {m.key}, k))
  {
    var server := ApplyOp(s.server, s.user, d, m, hard, env).0;
    var before, after := OwnRows(s.server.rows, s.user), OwnRows(server.rows, s.user);
    assert k in LetGo(before, after, m);
    ServedIsCommit(s.server, s.user, d, m, hard, env);
    ApplyLowersOnly(s.server, s.user, d, m, env.now, hard, k);
  }
}
