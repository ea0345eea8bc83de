// Convergence: in every calm run, a device that has nothing left to send and has pulled everything holds
// exactly the live records of the server, at the server's times and with the server's contents.

module Convergence {
  import opened SyncTypes
  import opened LastWriteWins
  import opened ServerApply
  import opened Validation
  import opened PushBatch
  import opened Devices
  import opened Paging
  import opened Outbox
  import opened ClientPull
  import opened PullDelta
  import opened SyncSystem
  import L = NoLostEdit
  import R = NoResurrection

  // ----- the hypotheses -----

  /** No change to the record carries this time yet. */
  predicate TimeIsFree(s: System, k: Key, at: Time) {
    forall o :: o in s.past.changes && s.past.changes[o].k == k ==> s.past.changes[o].at != at
  }

  /** A delete that takes the place of an unsent delete keeps its time; it must not be older than the row. */
  predicate NotBackdated(dev: Device, k: Key) {
    k in dev.queue && dev.queue[k].operation.Delete? && dev.queue[k].opId !in InFlight(dev.phase) && k in dev.rows ==>
      dev.rows[k].updatedAt <= dev.queue[k].createdAt
  }

  /** The transaction renames nothing. */
  ghost predicate NoClash(s: System, d: Id, m: Mutation) {
    var tx := ApplyMutation(s.server, s.user, d, m, s.clock, false);
    tx.Commit? ==> tx.conflict.None?
  }

  /** The record can be written as it came, no other local topic having its title, or takes only its own row
      away. */
  ghost predicate Plain(rows: map<Key, Local>, r: PageRow) {
    if Live(r.row) then r.row.body.TopicBody? ==> forall k :: Titled(rows, k, r.row.body.title) ==> k == r.key
    else forall k :: k in rows && FallsLocally(rows, r.key, k) ==> k == r.key
  }

  /** The operation served next. */
  predicate ServesPlainly(dev: Device) {
    dev.phase.Pushing? && dev.phase.done < |dev.phase.admitted|
  }

  /** The hypotheses on single steps, besides those of the two run theorems: the changes to a record have
      different times, deletes are soft and not backdated, no title clashes on the server or on a device,
      every record can be read, and no topic takes cards along. */
  ghost predicate Calm(s: System, step: Step) {
    && L.Mild(s, step) && R.Strict(s, step)
    && match step
       case Edit(_, k, _, at, _) => TimeIsFree(s, k, at)
       case Remove(d, k, at, _) => TimeIsFree(s, k, at) && d in s.devices && NotBackdated(s.devices[d], k)
       case ServeNext(d, hard, _) =>
         !hard && d in s.devices && ServesPlainly(s.devices[d])
         && NoClash(s, d, s.devices[d].phase.admitted[s.devices[d].phase.done])
       case Straggler(d, m, hard, _) => !hard && NoClash(s, d, ClampMutationTimes(m, s.clock))
       case AckArrives(d, _) => d in s.devices && s.devices[d].phase.Pushing? && s.devices[d].phase.ack.conflicts == []
       case ApplyNext(d, readable) =>
         readable && d in s.devices && IsApplying(s.devices[d])
         && s.devices[d].phase.next < |s.devices[d].phase.page.records|
         && Plain(s.devices[d].rows, s.devices[d].phase.page.records[s.devices[d].phase.next])
       case PurgeTombstones =>
         forall k :: k in s.server.rows && Falls(s.server.rows, PurgeKeys(s.server, s.user, s.clock), k) ==>
           k in PurgeKeys(s.server, s.user, s.clock)
       case _ => true
  }

  ghost predicate CalmRun(s: System, steps: seq<Step>)
    requires Runs(s, steps)
    decreases |steps|
  {
    steps == [] || (Calm(s, steps[0]) && CalmRun(Do(s, steps[0]), steps[1..]))
  }

  // ----- the invariant -----

  /** Some device wrote this version of the record. */
  ghost predicate Wrote(h: History, k: Key, at: Time, body: Body) {
    exists o :: o in h.changes && h.changes[o].k == k && h.changes[o].operation.Upsert? && h.changes[o].at == at
      && h.changes[o].body.Some? && StoredBody(h.changes[o].body.value) == StoredBody(body)
  }

  /** Some device deleted the record at this time. */
  ghost predicate Deleted(h: History, k: Key, at: Time) {
    exists o :: o in h.changes && h.changes[o].k == k && h.changes[o].operation.Delete? && h.changes[o].at == at
  }

  /** One time, one version. */
  predicate TimesApart(h: History) {
    forall o, p :: (o in h.changes && p in h.changes && h.changes[o].k == h.changes[p].k && h.changes[o].at == h.changes[p].at) ==>
      h.changes[o].operation == h.changes[p].operation && h.changes[o].body == h.changes[p].body
  }

  ghost predicate HistorySound(h: History) {
    && TimesApart(h)
    && (forall o :: o in h.changes ==> h.changes[o].at > 0 && (h.changes[o].operation.Upsert? <==> h.changes[o].body.Some?))
    && (forall x :: x in h.lastOp ==>
          h.lastOp[x] in h.changes && h.changes[h.lastOp[x]].d == x.0 && h.changes[h.lastOp[x]].k == x.1)
    && h.unknown <= h.changes.Keys && h.left <= h.changes.Keys && h.fallen == {}
    && (forall k :: k in h.letGo ==> k in h.purged && h.letGo[k] <= h.purged[k])
    && (forall k :: k in h.purged ==> Deleted(h, k, h.purged[k]))
    && (forall x :: x in h.sent && x.1.payload.Some? ==>
          Wrote(h, x.1.key, x.1.payload.value.updatedAt, x.1.payload.value.body))
  }

  /** A stored row is a version some device made. */
  ghost predicate RowSound(h: History, k: Key, row: Row) {
    row.serverSeq > 0
    && if Live(row) then Wrote(h, k, row.updatedAt, row.body) && StoredBody(row.body) == row.body else Deleted(h, k, row.updatedAt)
  }

  /** The device's latest change to the record is a delete at least as new, which counts: it was not left
      behind, the server knew the record when it logged it, and it did not just cancel a fresh edit. */
  predicate Gone(h: History, d: Id, k: Key, at: Time) {
    (d, k) in h.lastOp
    && var o := h.lastOp[(d, k)];
       o in h.changes && h.changes[o].operation.Delete? && h.changes[o].at >= at
       && o !in h.left && o !in h.unknown && (o in h.cancelled ==> h.cancelled[o])
  }

  /** The device has the record at least as new, or has deleted it since. */
  predicate Caught(h: History, d: Id, rows: map<Key, Local>, k: Key, at: Time) {
    if k in rows then rows[k].updatedAt >= at else Gone(h, d, k, at)
  }

  /** A local row stands for a version the server has, or for the device's latest edit. */
  predicate Backed(s: System, d: Id, k: Key, at: Time) {
    (R.Own(s, k) && s.server.rows[k].updatedAt >= at)
    || ((d, k) in s.past.lastOp
        && var o := s.past.lastOp[(d, k)];
           o in s.past.changes && s.past.changes[o].operation.Upsert? && s.past.changes[o].at >= at && o !in s.past.left)
  }

  /** A live record of a page in hand: the server still has it, or a later version written since. */
  predicate Stands(s: System, r: PageRow, upTo: nat) {
    Live(r.row) ==>
      R.Own(s, r.key) && s.server.rows[r.key].updatedAt >= r.row.updatedAt
      && (s.server.rows[r.key] == r.row || s.server.rows[r.key].serverSeq > upTo)
  }

  /** A record still to come that the view has but the store has not: the device deleted it since. */
  predicate Unseen(h: History, d: Id, rows: map<Key, Local>, known: map<Key, Time>, k: Key) {
    k in known && k !in rows ==> Gone(h, d, k, known[k])
  }

  ghost predicate PageCaught(s: System, d: Id, rows: map<Key, Local>, page: Page, upTo: nat, next: nat, known: Option<map<Key, Time>>) {
    && next <= |page.records|
    && (forall r :: r in page.records ==> Stands(s, r, upTo) && RowSound(s.past, r.key, r.row))
    && (forall i :: 0 <= i < next && Live(page.records[i].row) ==>
          Caught(s.past, d, rows, page.records[i].key, page.records[i].row.updatedAt))
    && (known.Some? ==> forall i :: next <= i < |page.records| && Live(page.records[i].row) ==>
          Unseen(s.past, d, rows, known.value, page.records[i].key))
  }

  ghost predicate PhaseCaught(s: System, d: Id, dev: Device) {
    match dev.phase
    case Pulling(page, _, upTo, next, known) => PageCaught(s, d, dev.rows, page, upTo, next, known)
    case _ => true
  }

  ghost predicate DeviceCaught(s: System, d: Id, dev: Device) {
    && (forall k :: k in dev.rows ==> Wrote(s.past, k, dev.rows[k].updatedAt, dev.rows[k].body) && Backed(s, d, k, dev.rows[k].updatedAt))
    && (forall k :: R.Own(s, k) && Live(s.server.rows[k]) && s.server.rows[k].serverSeq <= dev.cursor ==>
          Caught(s.past, d, dev.rows, k, s.server.rows[k].updatedAt))
    && PhaseCaught(s, d, dev)
  }

  ghost predicate StoreSound(s: System) {
    s.clock > 0 && forall k :: R.Own(s, k) ==> RowSound(s.past, k, s.server.rows[k])
  }

  predicate Timely(h: History, now: Time) {
    forall o :: o in h.changes ==> h.changes[o].at <= now
  }

  ghost predicate Invariant(s: System) {
    && HistorySound(s.past) && Timely(s.past, s.clock) && StoreSound(s)
    && (forall d :: d in s.devices ==> DeviceCaught(s, d, s.devices[d]))
  }

  // ----- versions -----

  lemma NoTie(h: History, k: Key, at: Time, body: Body)
    requires TimesApart(h) && Wrote(h, k, at, body)
    ensures !Deleted(h, k, at)
  {
  }

  lemma OneBody(h: History, k: Key, at: Time, body1: Body, body2: Body)
    requires TimesApart(h) && Wrote(h, k, at, body1) && Wrote(h, k, at, body2)
    ensures StoredBody(body1) == StoredBody(body2)
  {
    var o :| o in h.changes && h.changes[o].k == k && h.changes[o].operation.Upsert? && h.changes[o].at == at
      && h.changes[o].body.Some? && StoredBody(h.changes[o].body.value) == StoredBody(body1);
    var p :| p in h.changes && h.changes[p].k == k && h.changes[p].operation.Upsert? && h.changes[p].at == at
      && h.changes[p].body.Some? && StoredBody(h.changes[p].body.value) == StoredBody(body2);
  }

  // ----- frames -----

  ghost predicate MoreChanges(h: History, h1: History) {
    forall o :: o in h.changes ==> o in h1.changes && h1.changes[o] == h.changes[o]
  }

  lemma VersionsStay(h: History, h1: History)
    requires MoreChanges(h, h1)
    ensures forall k, at, body :: Wrote(h, k, at, body) ==> Wrote(h1, k, at, body)
    ensures forall k, at :: Deleted(h, k, at) ==> Deleted(h1, k, at)
  {
    forall k, at, body | Wrote(h, k, at, body) ensures Wrote(h1, k, at, body) {
      var o :| o in h.changes && h.changes[o].k == k && h.changes[o].operation.Upsert? && h.changes[o].at == at
        && h.changes[o].body.Some? && StoredBody(h.changes[o].body.value) == StoredBody(body);
      assert o in h1.changes;
    }
    forall k, at | Deleted(h, k, at) ensures Deleted(h1, k, at) {
      var o :| o in h.changes && h.changes[o].k == k && h.changes[o].operation.Delete? && h.changes[o].at == at;
      assert o in h1.changes;
    }
  }

  /** What the history says of the device's latest change to the record is as before. */
  predicate SameLatest(h: History, h1: History, d: Id, k: Key) {
    (d, k) in h.lastOp ==>
      (d, k) in h1.lastOp && h1.lastOp[(d, k)] == h.lastOp[(d, k)]
      && var o := h.lastOp[(d, k)];
         (o in h1.left ==> o in h.left) && (o in h1.unknown ==> o in h.unknown)
         && (o in h1.cancelled ==> o in h.cancelled && h1.cancelled[o] == h.cancelled[o])
  }

  lemma CaughtStays(h: History, h1: History, d: Id, rows: map<Key, Local>, k: Key, at: Time)
    requires Caught(h, d, rows, k, at) && MoreChanges(h, h1) && SameLatest(h, h1, d, k)
    ensures Caught(h1, d, rows, k, at)
  {
  }

  /** The server's rows of the user were kept, or rewritten above the old sequence and no older. */
  ghost predicate RowsGrow(s: System, s1: System) {
    && s1.user == s.user
    && (forall k :: R.Own(s, k) ==> R.Own(s1, k) && s1.server.rows[k].updatedAt >= s.server.rows[k].updatedAt)
    && (forall k :: R.Own(s1, k) ==> (R.Own(s, k) && s1.server.rows[k] == s.server.rows[k]) || s1.server.rows[k].serverSeq > SeqOf(s.server, s.user))
  }

  /** The server moved on and the history grew, and nothing new is said of what the device changed. */
  ghost predicate Quieter(s: System, s1: System, d: Id) {
    && RowsGrow(s, s1) && MoreChanges(s.past, s1.past)
    && (forall k :: R.Own(s, k) ==> SameLatest(s.past, s1.past, d, k))
    && (forall k :: (d, k) in s.past.lastOp ==>
          (d, k) in s1.past.lastOp && s1.past.lastOp[(d, k)] == s.past.lastOp[(d, k)]
          && (s.past.lastOp[(d, k)] in s1.past.left ==> s.past.lastOp[(d, k)] in s.past.left))
  }

  lemma StandsStays(s: System, s1: System, r: PageRow, upTo: nat)
    requires RowsGrow(s, s1) && Stands(s, r, upTo) && upTo <= SeqOf(s.server, s.user)
    ensures Stands(s1, r, upTo)
  {
  }

  lemma PageStays(s: System, s1: System, d: Id, rows: map<Key, Local>, page: Page, upTo: nat, next: nat, known: Option<map<Key, Time>>)
    requires PageCaught(s, d, rows, page, upTo, next, known) && Quieter(s, s1, d) && upTo <= SeqOf(s.server, s.user)
    ensures PageCaught(s1, d, rows, page, upTo, next, known)
  {
    forall r | r in page.records ensures Stands(s1, r, upTo) {
      StandsStays(s, s1, r, upTo);
    }
    PageWith(s, s1, d, rows, page, upTo, next, known);
  }

  /** A page in hand whose records still stand, with nothing new said of what the device changed. */
  lemma PageWith(s: System, s1: System, d: Id, rows: map<Key, Local>, page: Page, upTo: nat, next: nat, known: Option<map<Key, Time>>)
    requires PageCaught(s, d, rows, page, upTo, next, known) && (forall r :: r in page.records ==> Stands(s1, r, upTo))
    requires MoreChanges(s.past, s1.past) && forall k :: R.Own(s, k) ==> SameLatest(s.past, s1.past, d, k)
    ensures PageCaught(s1, d, rows, page, upTo, next, known)
  {
    VersionsStay(s.past, s1.past);
    forall i | 0 <= i < |page.records| && Live(page.records[i].row)
      ensures i < next ==> Caught(s1.past, d, rows, page.records[i].key, page.records[i].row.updatedAt)
      ensures i >= next && known.Some? ==> Unseen(s1.past, d, rows, known.value, page.records[i].key)
    {
      assert page.records[i] in page.records && R.Own(s, page.records[i].key);
      assert SameLatest(s.past, s1.past, d, page.records[i].key);
    }
  }

  lemma DeviceStays(s: System, s1: System, d: Id, dev: Device)
    requires DeviceCaught(s, d, dev) && Quieter(s, s1, d) && dev.cursor <= SeqOf(s.server, s.user)
    requires dev.phase.Pulling? ==> dev.phase.upTo <= SeqOf(s.server, s.user)
    ensures DeviceCaught(s1, d, dev)
  {
    VersionsStay(s.past, s1.past);
    forall k | R.Own(s1, k) && Live(s1.server.rows[k]) && s1.server.rows[k].serverSeq <= dev.cursor
      ensures Caught(s1.past, d, dev.rows, k, s1.server.rows[k].updatedAt)
    {
      CaughtStays(s.past, s1.past, d, dev.rows, k, s.server.rows[k].updatedAt);
    }
    if dev.phase.Pulling? {
      PageStays(s, s1, d, dev.rows, dev.phase.page, dev.phase.upTo, dev.phase.next, dev.phase.known);
    }
  }

  // ----- serving -----

  /** The row a calm transaction writes: the pushed version, or the tombstone, no older than what it replaces. */
  predicate NewRow(s: Server, user: Id, m: Mutation, row: Row) {
    && row.owner == user && row.serverSeq == SeqOf(s, user) + 1
    && (m.key in s.rows ==> s.rows[m.key].owner == user && s.rows[m.key].updatedAt <= row.updatedAt)
    && if m.operation.Upsert?
       then m.payload.Some? && Live(row) && row.updatedAt == m.payload.value.updatedAt && row.body == StoredBody(m.payload.value.body)
       else m.key in s.rows && !Live(row) && row.updatedAt == m.updatedAt
  }

  /** A transaction that writes at most one row, of the record pushed. */
  ghost predicate WritesOne(s: Server, user: Id, m: Mutation, s1: Server) {
    SeqOf(s, user) <= SeqOf(s1, user)
    && (s1.rows == s.rows || (m.key in s1.rows && s1.rows == s.rows[m.key := s1.rows[m.key]] && NewRow(s, user, m, s1.rows[m.key])))
  }

  lemma CalmDelete(s: Server, user: Id, m: Mutation, now: Time)
    requires m.operation.Delete? && m.updatedAt != 0 && ApplyDelete(s, user, m, now, false).Commit?
    ensures WritesOne(s, user, m, ApplyDelete(s, user, m, now, false).server)
  {
  }

  lemma CalmCard(s: Server, user: Id, device: Id, m: Mutation)
    requires m.operation.Upsert? && m.key.table.Cards? && ApplyCardUpsert(s, user, device, m).Commit?
    requires device != "" && Addressed(m) && m.payload.value.deletedAt.None?
    ensures WritesOne(s, user, m, ApplyCardUpsert(s, user, device, m).server)
  {
    if m.key in s.rows {
      ServerTieGoesToIncoming(s.rows[m.key].updatedAt, m.payload.value.updatedAt, device, m.key.id);
    }
  }

  lemma CalmTopic(s: Server, user: Id, device: Id, m: Mutation, now: Time)
    requires m.operation.Upsert? && m.key.table.Topics? && ApplyTopicUpsert(s, user, device, m, now).Commit?
    requires device != "" && Addressed(m) && m.payload.value.deletedAt.None?
    requires ApplyTopicUpsert(s, user, device, m, now).conflict.None?
    ensures WritesOne(s, user, m, ApplyTopicUpsert(s, user, device, m, now).server)
  {
    if m.key in s.rows {
      ServerTieGoesToIncoming(s.rows[m.key].updatedAt, m.payload.value.updatedAt, device, m.key.id);
    }
  }

  lemma CalmServe(s: Server, user: Id, device: Id, m: Mutation, env: Env)
    requires device != "" && Addressed(m) && R.SentFresh(m, env.now) && (m.operation.Delete? ==> m.updatedAt != 0)
    requires var tx := ApplyMutation(s, user, device, m, env.now, false); tx.Commit? ==> tx.conflict.None?
    ensures WritesOne(s, user, m, ApplyOp(s, user, device, m, false, env).0)
  {
    if ApplyMutation(s, user, device, m, env.now, false).Commit? {
      if m.operation.Delete? {
        CalmDelete(s, user, m, env.now);
      } else if m.key.table.Topics? {
        CalmTopic(s, user, device, m, env.now);
      } else {
        CalmCard(s, user, device, m);
      }
    }
  }

  lemma NothingLetGo(s: System, server: Server, m: Mutation)
    requires WritesOne(s.server, s.user, m, server)
    ensures Served(s, server, m).past.letGo == s.past.letGo
  {
    assert LetGo(OwnRows(s.server.rows, s.user), OwnRows(server.rows, s.user), m) == map[];
    RaiseNothing(s.past.letGo);
  }

  lemma RaiseNothing(best: map<Key, Time>)
    ensures Raise(best, map[]) == best
  {
  }

  /** The history gains nothing its soundness depends on. */
  lemma HistoryStaysSound(h: History, h1: History)
    requires HistorySound(h) && h1.changes == h.changes && h1.lastOp == h.lastOp && h1.left == h.left && h1.fallen == h.fallen
    requires h1.letGo == h.letGo && h1.purged == h.purged && h1.sent == h.sent && h1.unknown <= h.changes.Keys
    ensures HistorySound(h1)
  {
    VersionsStay(h, h1);
  }

  /** Nothing is let go, and the history gains at most one delete of a record the server does not store. */
  lemma ServedHistory(s: System, server: Server, m: Mutation)
    requires WritesOne(s.server, s.user, m, server) && HistorySound(s.past) && m.opId in s.past.changes
    ensures HistorySound(Served(s, server, m).past)
  {
    NothingLetGo(s, server, m);
    HistoryStaysSound(s.past, Served(s, server, m).past);
  }

  lemma ServedGrows(s: System, server: Server, m: Mutation)
    requires WritesOne(s.server, s.user, m, server)
    ensures RowsGrow(s, Served(s, server, m))
  {
  }

  /** A served delete is new to the server only if the server did not store its record. */
  lemma ServedQuieter(s: System, server: Server, m: Mutation, d: Id)
    requires WritesOne(s.server, s.user, m, server) && HistorySound(s.past)
    requires m.opId in s.past.changes && s.past.changes[m.opId].k == m.key
    ensures Quieter(s, Served(s, server, m), d)
  {
    ServedGrows(s, server, m);
  }

  lemma ServedRowSound(s: System, server: Server, m: Mutation, d: Id, k: Key)
    requires WritesOne(s.server, s.user, m, server) && HistorySound(s.past) && StoreSound(s)
    requires L.SentSafe(s, (d, m)) && (d, m) in s.past.sent
    requires R.Own(Served(s, server, m), k)
    ensures RowSound(s.past, k, server.rows[k])
  {
    if k in s.server.rows && server.rows[k] == s.server.rows[k] {
      assert R.Own(s, k);
    } else if m.operation.Upsert? {
      var x := (d, m);
      assert Wrote(s.past, x.1.key, x.1.payload.value.updatedAt, x.1.payload.value.body);
      StoredBodyIs(m.payload.value.body);
      SameStored(s.past, k, m.payload.value.updatedAt, m.payload.value.body, server.rows[k].body);
    } else {
      assert m.opId in s.past.changes;
    }
  }

  lemma SameStored(h: History, k: Key, at: Time, body: Body, stored: Body)
    requires Wrote(h, k, at, body) && StoredBody(stored) == StoredBody(body)
    ensures Wrote(h, k, at, stored)
  {
  }

  /** Where devices stand: no cursor and no page is beyond the server's sequence. */
  predicate WithinSeq(s: System, dev: Device) {
    dev.cursor <= SeqOf(s.server, s.user) && (dev.phase.Pulling? ==> dev.phase.upTo <= SeqOf(s.server, s.user))
  }

  ghost predicate AllWithin(s: System) {
    forall d :: d in s.devices ==> WithinSeq(s, s.devices[d])
  }

  lemma FreshIsWithin(s: System)
    requires R.Invariant(s)
    ensures AllWithin(s)
  {
    forall d | d in s.devices ensures WithinSeq(s, s.devices[d]) {
      assert R.DeviceFresh(s, d);
    }
  }

  lemma ServedKeeps(s: System, d: Id, m: Mutation, fault: Fault)
    requires L.Invariant(s) && R.Invariant(s) && Invariant(s) && (d, m) in s.past.sent && s.check(m).None? && NoClash(s, d, m)
    ensures var s1 := Served(s, ApplyOp(s.server, s.user, d, m, false, Env(s.clock, fault)).0, m);
      Invariant(s1) && AllWithin(s1)
  {
    var server := ApplyOp(s.server, s.user, d, m, false, Env(s.clock, fault)).0;
    assert L.SentSafe(s, (d, m)) && R.SentFresh((d, m).1, s.clock);
    FreshIsWithin(s);
    CalmServe(s.server, s.user, d, m, Env(s.clock, fault));
    ServedInvariant(s, server, m, d);
    ServedWithin(s, server, m);
  }

  lemma ServedWithin(s: System, server: Server, m: Mutation)
    requires AllWithin(s) && SeqOf(s.server, s.user) <= SeqOf(server, s.user)
    ensures AllWithin(Served(s, server, m))
  {
  }

  lemma ServedInvariant(s: System, server: Server, m: Mutation, d: Id)
    requires AllWithin(s) && Invariant(s) && WritesOne(s.server, s.user, m, server)
    requires L.SentSafe(s, (d, m)) && (d, m) in s.past.sent
    ensures Invariant(Served(s, server, m))
  {
    var s1 := Served(s, server, m);
    ServedHistory(s, server, m);
    VersionsStay(s.past, s1.past);
    forall k | R.Own(s1, k) ensures RowSound(s1.past, k, s1.server.rows[k]) {
      ServedRowSound(s, server, m, d, k);
    }
    forall e | e in s1.devices ensures DeviceCaught(s1, e, s1.devices[e]) {
      ServedQuieter(s, server, m, e);
      DeviceStays(s, s1, e, s.devices[e]);
    }
  }

  // ----- one device at a time -----

  /** Only the device `d` changed, and of the history only what no device's standing depends on. */
  lemma OneDevice(s: System, s1: System, d: Id)
    requires AllWithin(s) && Invariant(s) && d in s.devices && d in s1.devices
    requires s1 == s.(devices := s.devices[d := s1.devices[d]], past := s1.past)
    requires HistorySound(s1.past) && Timely(s1.past, s1.clock) && MoreChanges(s.past, s1.past)
    requires DeviceCaught(s1, d, s1.devices[d])
    requires forall e :: e != d ==> Quieter(s, s1, e)
    ensures Invariant(s1)
  {
    VersionsStay(s.past, s1.past);
    forall e | e in s1.devices ensures DeviceCaught(s1, e, s1.devices[e]) {
      if e != d {
        DeviceStays(s, s1, e, s.devices[e]);
      }
    }
  }

  /** Of the history only failures and requests were added. */
  lemma SameHistory(s: System, s1: System, d: Id)
    requires s1.user == s.user && s1.server == s.server
    requires s1.past == s.past.(failed := s1.past.failed, sent := s1.past.sent, fallen := s1.past.fallen)
    ensures Quieter(s, s1, d) && MoreChanges(s.past, s1.past)
  {
  }

  /** Only the phase or the cursor of one device changed, or nothing but failures was noted. */
  lemma PhaseMoved(s: System, s1: System, d: Id)
    requires AllWithin(s) && Invariant(s) && d in s.devices && d in s1.devices
    requires s1 == s.(devices := s.devices[d := s1.devices[d]], past := s.past.(failed := s1.past.failed))
    requires DeviceCaught(s1, d, s1.devices[d])
    ensures Invariant(s1)
  {
    forall e ensures Quieter(s, s1, e) {
      SameHistory(s, s1, e);
    }
    VersionsStay(s.past, s1.past);
    OneDevice(s, s1, d);
  }

  /** The device's rows and cursor stay, and it is not pulling. */
  lemma NotPullingCaught(s: System, s1: System, d: Id, dev: Device, dev1: Device)
    requires DeviceCaught(s, d, dev) && Quieter(s, s1, d) && WithinSeq(s, dev)
    requires dev1.rows == dev.rows && dev1.cursor == dev.cursor && !dev1.phase.Pulling?
    ensures DeviceCaught(s1, d, dev1)
  {
    DeviceStays(s, s1, d, dev);
  }

  lemma RestKeeps(s: System, d: Id, queue: Queue, phase: Phase, failed: set<(Id, Id)>)
    requires AllWithin(s) && Invariant(s) && d in s.devices && !phase.Pulling?
    ensures Invariant(WithDevice(s, d, s.devices[d].(queue := queue, phase := phase)).(past := s.past.(failed := failed)))
  {
    var s1 := WithDevice(s, d, s.devices[d].(queue := queue, phase := phase)).(past := s.past.(failed := failed));
    SameHistory(s, s1, d);
    NotPullingCaught(s, s1, d, s.devices[d], s1.devices[d]);
    PhaseMoved(s, s1, d);
  }

  lemma AnsweredKeeps(s: System, d: Id, ack: Ack)
    requires AllWithin(s) && Invariant(s) && d in s.devices && s.devices[d].phase.Pushing?
    ensures Invariant(Answered(s, d, ack))
  {
    var s1 := Answered(s, d, ack);
    SameHistory(s, s1, d);
    NotPullingCaught(s, s1, d, s.devices[d], s1.devices[d]);
    PhaseMoved(s, s1, d);
  }

  lemma SentByDevice(s: System, d: Id)
    requires L.Invariant(s) && d in s.devices && ServesPlainly(s.devices[d])
    ensures var m := s.devices[d].phase.admitted[s.devices[d].phase.done]; (d, m) in s.past.sent && s.check(m).None?
  {
    assert L.DeviceSafe(s, d, s.devices[d]);
    assert s.devices[d].phase.admitted[s.devices[d].phase.done] in s.devices[d].phase.admitted;
  }

  lemma ServeNextKeeps(s: System, d: Id, fault: Fault)
    requires L.Invariant(s) && R.Invariant(s) && Invariant(s) && d in s.devices && ServesPlainly(s.devices[d])
    requires NoClash(s, d, s.devices[d].phase.admitted[s.devices[d].phase.done])
    ensures Invariant(DoServeNext(s, d, false, fault))
  {
    var p := s.devices[d].phase;
    var m := p.admitted[p.done];
    SentByDevice(s, d);
    ServedKeeps(s, d, m, fault);
    var (server, verdict) := ApplyOp(s.server, s.user, d, m, false, Env(s.clock, fault));
    AnsweredKeeps(Served(s, server, m), d, Noted(p.ack, m.opId, verdict));
  }

  lemma StragglerKeeps(s: System, d: Id, m: Mutation, fault: Fault)
    requires L.Invariant(s) && R.Invariant(s) && Invariant(s) && Enabled(s, Straggler(d, m, false, fault))
    requires NoClash(s, d, ClampMutationTimes(m, s.clock))
    ensures Invariant(DoStraggler(s, d, m, false, fault))
  {
    assert L.SentSafe(s, (d, m));
    ClampExact(m, s.clock);
    ServedKeeps(s, d, m, fault);
  }

  // ----- local changes -----

  /** One more change, at a time of its own or, as a delete, at another delete's. */
  ghost predicate Changed(h: History, h1: History, o: Id, c: Change) {
    && o !in h.changes && h1.changes == h.changes[o := c] && h1.lastOp == h.lastOp[(c.d, c.k) := o]
    && c.at > 0 && (c.operation.Upsert? <==> c.body.Some?)
    && (forall p :: p in h.changes && h.changes[p].k == c.k && h.changes[p].at == c.at ==>
          h.changes[p].operation == c.operation && h.changes[p].body == c.body)
  }

  lemma ChangedLatest(h: History, h1: History, o: Id, c: Change)
    requires HistorySound(h) && Changed(h, h1, o, c)
    ensures TimesApart(h1)
    ensures forall x :: x in h1.lastOp ==>
      h1.lastOp[x] in h1.changes && h1.changes[h1.lastOp[x]].d == x.0 && h1.changes[h1.lastOp[x]].k == x.1
  {
  }

  lemma ChangedKeys(h: History, h1: History, o: Id, c: Change)
    requires HistorySound(h) && Changed(h, h1, o, c)
    ensures MoreChanges(h, h1) && h.changes.Keys <= h1.changes.Keys
    ensures forall p :: p in h1.changes ==> h1.changes[p].at > 0 && (h1.changes[p].operation.Upsert? <==> h1.changes[p].body.Some?)
  {
  }

  lemma ChangedSound(h: History, h1: History, o: Id, c: Change)
    requires HistorySound(h) && Changed(h, h1, o, c)
    requires h1.unknown == h.unknown && h1.left == h.left && h1.fallen == h.fallen && h1.letGo == h.letGo
    requires h1.purged == h.purged && h1.sent == h.sent
    ensures HistorySound(h1) && MoreChanges(h, h1)
  {
    ChangedLatest(h, h1, o, c);
    ChangedKeys(h, h1, o, c);
    VersionsStay(h, h1);
  }

  lemma RecordedSound(s: System, s1: System, o: Id, c: Change)
    requires HistorySound(s.past) && L.Recorded(s, s1, o, c)
    requires c.at > 0 && (c.operation.Upsert? <==> c.body.Some?)
    requires forall p :: p in s.past.changes && s.past.changes[p].k == c.k && s.past.changes[p].at == c.at ==>
      s.past.changes[p].operation == c.operation && s.past.changes[p].body == c.body
    ensures HistorySound(s1.past) && MoreChanges(s.past, s1.past)
  {
    ChangedSound(s.past, s1.past, o, c);
  }

  /** Nothing is said anew of any other record, nor of any other device. */
  lemma RecordedElsewhere(s: System, s1: System, o: Id, c: Change, e: Id, j: Key)
    requires HistorySound(s.past) && L.Recorded(s, s1, o, c) && (e != c.d || j != c.k)
    ensures SameLatest(s.past, s1.past, e, j)
  {
  }

  lemma RecordedQuiet(s: System, s1: System, o: Id, c: Change, e: Id)
    requires HistorySound(s.past) && L.Recorded(s, s1, o, c) && e != c.d
    ensures Quieter(s, s1, e)
  {
    forall k ensures SameLatest(s.past, s1.past, e, k) {
      RecordedElsewhere(s, s1, o, c, e, k);
    }
  }

  /** What the change must leave in order for its own record. */
  ghost predicate InOrder(s1: System, d: Id, k: Key)
    requires d in s1.devices
  {
    var dev := s1.devices[d];
    && (k in dev.rows ==> Wrote(s1.past, k, dev.rows[k].updatedAt, dev.rows[k].body) && Backed(s1, d, k, dev.rows[k].updatedAt))
    && (R.Own(s1, k) && Live(s1.server.rows[k]) && s1.server.rows[k].serverSeq <= dev.cursor ==>
          Caught(s1.past, d, dev.rows, k, s1.server.rows[k].updatedAt))
    && (dev.phase.Pulling? ==>
          var p := dev.phase;
          (forall i :: 0 <= i < |p.page.records| && Live(p.page.records[i].row) && p.page.records[i].key == k ==>
             (i < p.next ==> Caught(s1.past, d, dev.rows, k, p.page.records[i].row.updatedAt))
             && (i >= p.next && p.known.Some? ==> Unseen(s1.past, d, dev.rows, p.known.value, k))))
  }

  lemma RecordedPage(s: System, s1: System, o: Id, c: Change)
    requires HistorySound(s.past) && L.Recorded(s, s1, o, c) && MoreChanges(s.past, s1.past)
    requires s.devices[c.d].phase.Pulling? && DeviceCaught(s, c.d, s.devices[c.d]) && InOrder(s1, c.d, c.k)
    ensures PhaseCaught(s1, c.d, s1.devices[c.d])
  {
    var dev, dev1 := s.devices[c.d], s1.devices[c.d];
    var p := dev.phase;
    VersionsStay(s.past, s1.past);
    forall i | 0 <= i < |p.page.records| && Live(p.page.records[i].row)
      ensures i < p.next ==> Caught(s1.past, c.d, dev1.rows, p.page.records[i].key, p.page.records[i].row.updatedAt)
      ensures i >= p.next && p.known.Some? ==> Unseen(s1.past, c.d, dev1.rows, p.known.value, p.page.records[i].key)
    {
      var j := p.page.records[i].key;
      if j != c.k {
        RecordedElsewhere(s, s1, o, c, c.d, j);
        assert L.RowAt(dev1.rows, j) == L.RowAt(dev.rows, j);
      }
    }
  }

  lemma RecordedDevice(s: System, s1: System, o: Id, c: Change)
    requires HistorySound(s.past) && L.Recorded(s, s1, o, c) && MoreChanges(s.past, s1.past)
    requires s1.devices[c.d].cursor == s.devices[c.d].cursor
    requires DeviceCaught(s, c.d, s.devices[c.d]) && InOrder(s1, c.d, c.k)
    ensures DeviceCaught(s1, c.d, s1.devices[c.d])
  {
    var dev, dev1 := s.devices[c.d], s1.devices[c.d];
    VersionsStay(s.past, s1.past);
    forall j | j in dev1.rows
      ensures Wrote(s1.past, j, dev1.rows[j].updatedAt, dev1.rows[j].body) && Backed(s1, c.d, j, dev1.rows[j].updatedAt)
    {
      if j != c.k { assert L.RowAt(dev1.rows, j) == L.RowAt(dev.rows, j); }
    }
    forall j | R.Own(s1, j) && Live(s1.server.rows[j]) && s1.server.rows[j].serverSeq <= dev1.cursor
      ensures Caught(s1.past, c.d, dev1.rows, j, s1.server.rows[j].updatedAt)
    {
      if j != c.k {
        assert R.Own(s, j);
        RecordedElsewhere(s, s1, o, c, c.d, j);
        assert L.RowAt(dev1.rows, j) == L.RowAt(dev.rows, j);
      }
    }
    if dev.phase.Pulling? { RecordedPage(s, s1, o, c); }
  }

  lemma RecordedKeeps(s: System, s1: System, o: Id, c: Change)
    requires AllWithin(s) && Invariant(s) && L.Recorded(s, s1, o, c)
    requires s1.devices[c.d].cursor == s.devices[c.d].cursor && InOrder(s1, c.d, c.k)
    requires HistorySound(s1.past) && MoreChanges(s.past, s1.past) && c.at <= s.clock
    ensures Invariant(s1)
  {
    RecordedDevice(s, s1, o, c);
    forall e | e != c.d ensures Quieter(s, s1, e) {
      RecordedQuiet(s, s1, o, c, e);
    }
    OneDevice(s, s1, c.d);
  }

  /** No time in sight is later than the present. */
  ghost predicate NoFuture(s: System, d: Id, k: Key)
    requires d in s.devices
  {
    && (R.Own(s, k) ==> s.server.rows[k].updatedAt <= s.clock)
    && (k in s.devices[d].rows ==> s.devices[d].rows[k].updatedAt <= s.clock)
    && (s.devices[d].phase.Pulling? ==> forall r :: r in s.devices[d].phase.page.records ==> r.row.updatedAt <= s.clock)
  }

  lemma FreshHasNoFuture(s: System, d: Id, k: Key)
    requires R.Invariant(s) && d in s.devices
    ensures NoFuture(s, d, k)
  {
    assert R.DeviceFresh(s, d);
  }

  lemma EditInOrder(s: System, d: Id, k: Key, body: Body, o: Id)
    requires d in s.devices && o !in s.past.changes && NoFuture(s, d, k) && !L.Coming(s.devices[d], k)
    requires HistorySound(s.past)
    ensures InOrder(DoEdit(s, d, k, body, s.clock, o), d, k)
  {
    var s1 := DoEdit(s, d, k, body, s.clock, o);
    assert o in s1.past.changes;
    var p := s.devices[d].phase;
    if p.Pulling? {
      forall i | 0 <= i < |p.page.records| && p.page.records[i].key == k
        ensures p.page.records[i].row.updatedAt <= s.clock && (p.known.Some? ==> i < p.next)
      {
        assert p.page.records[i] in p.page.records;
      }
    }
  }

  lemma EditKeeps(s: System, d: Id, k: Key, body: Body, o: Id)
    requires L.Invariant(s) && R.Invariant(s) && Invariant(s)
    requires Enabled(s, Edit(d, k, body, s.clock, o)) && Calm(s, Edit(d, k, body, s.clock, o))
    ensures Invariant(DoEdit(s, d, k, body, s.clock, o))
  {
    var c := Change(d, k, Upsert, s.clock, Some(body));
    var s1 := DoEdit(s, d, k, body, s.clock, o);
    L.EditIsRecorded(s, d, k, body, s.clock, o);
    FreshHasNoFuture(s, d, k);
    FreshIsWithin(s);
    EditInOrder(s, d, k, body, o);
    RecordedSound(s, s1, o, c);
    RecordedKeeps(s, s1, o, c);
  }

  /** The time a delete will carry: its own, or that of an unsent delete whose place it takes. */
  predicate CarriesTime(s: System, d: Id, k: Key, at: Time)
    requires d in s.devices
  {
    var dev := s.devices[d];
    at == s.clock
    || (k in dev.queue && dev.queue[k].operation.Delete? && dev.queue[k].opId !in InFlight(dev.phase) && at == dev.queue[k].createdAt)
  }

  lemma RemoveCarries(s: System, d: Id, k: Key, o: Id)
    requires d in s.devices
    ensures CarriesTime(s, d, k, DoRemove(s, d, k, s.clock, o).past.changes[o].at)
    ensures DoRemove(s, d, k, s.clock, o).past.changes[o] == Change(d, k, Delete, DoRemove(s, d, k, s.clock, o).past.changes[o].at, None)
  {
  }

  /** The unsent delete is the device's latest change to the record, at the time it is queued under. */
  lemma QueuedDelete(s: System, d: Id, k: Key)
    requires L.Invariant(s) && d in s.devices && k in s.devices[d].queue && s.devices[d].queue[k].operation.Delete?
    ensures var q := s.devices[d].queue[k];
      q.opId in s.past.changes && s.past.changes[q.opId].operation.Delete? && s.past.changes[q.opId].k == k
      && s.past.changes[q.opId].at == q.createdAt
      && (d, k) in s.past.lastOp && s.past.lastOp[(d, k)] == q.opId
  {
    assert L.DeviceSafe(s, d, s.devices[d]) && L.ItemSafe(s, d, s.devices[d], k);
  }

  /** Whatever was caught stays so: the delete is not older than the row, nor than the delete it replaces. */
  lemma RemoveStillCaught(s: System, d: Id, k: Key, o: Id, at: Time)
    requires L.Invariant(s) && HistorySound(s.past) && d in s.devices && o !in s.past.changes
    requires NotBackdated(s.devices[d], k) && NoFuture(s, d, k) && Timely(s.past, s.clock) && EverSent(s, k)
    requires Caught(s.past, d, s.devices[d].rows, k, at)
    ensures var s1 := DoRemove(s, d, k, s.clock, o); Caught(s1.past, d, s1.devices[d].rows, k, at)
  {
    var s1 := DoRemove(s, d, k, s.clock, o);
    RemoveCarries(s, d, k, o);
    var dev := s.devices[d];
    if s1.past.changes[o].at != s.clock { QueuedDelete(s, d, k); }
  }

  /** A record already applied is caught. */
  lemma PassedIsCaught(s: System, d: Id, i: nat)
    requires d in s.devices && s.devices[d].phase.Pulling? && DeviceCaught(s, d, s.devices[d])
    requires var p := s.devices[d].phase; i < p.next && i < |p.page.records| && Live(p.page.records[i].row)
    ensures var r := s.devices[d].phase.page.records[i]; Caught(s.past, d, s.devices[d].rows, r.key, r.row.updatedAt)
  {
  }

  /** What the view has of a record still to come is caught. */
  lemma KnownIsCaught(s: System, d: Id, i: nat)
    requires L.Invariant(s) && d in s.devices && IsApplying(s.devices[d]) && DeviceCaught(s, d, s.devices[d])
    requires var p := s.devices[d].phase;
      p.next <= i < |p.page.records| && Live(p.page.records[i].row) && p.page.records[i].key in p.known.value
    ensures var p := s.devices[d].phase; var k := p.page.records[i].key;
      Caught(s.past, d, s.devices[d].rows, k, p.known.value[k])
  {
    var dev, p := s.devices[d], s.devices[d].phase;
    assert L.DeviceSafe(s, d, dev) && L.PageSafe(s, dev.rows, p.page, p.next, p.known);
    assert L.ViewOf(dev.rows, p.known.value, p.page.records[i].key);
    assert Unseen(s.past, d, dev.rows, p.known.value, p.page.records[i].key);
  }

  /** A record on a page has been sent once. */
  lemma SentIfListed(s: System, d: Id, k: Key, i: nat)
    requires L.Invariant(s) && d in s.devices && s.devices[d].phase.Pulling? && DeviceCaught(s, d, s.devices[d])
    requires var rs := s.devices[d].phase.page.records; i < |rs| && Live(rs[i].row) && rs[i].key == k
    ensures EverSent(s, k)
  {
    var p := s.devices[d].phase;
    assert p.page.records[i] in p.page.records && Stands(s, p.page.records[i], p.upTo) && R.Own(s, k);
  }

  /** A record of the page already applied. */
  lemma RemovePassedInOrder(s: System, d: Id, k: Key, o: Id, i: nat)
    requires L.Invariant(s) && HistorySound(s.past) && d in s.devices && o !in s.past.changes
    requires NotBackdated(s.devices[d], k) && NoFuture(s, d, k) && Timely(s.past, s.clock) && DeviceCaught(s, d, s.devices[d])
    requires s.devices[d].phase.Pulling? && i < s.devices[d].phase.next
    requires var rs := s.devices[d].phase.page.records; i < |rs| && Live(rs[i].row) && rs[i].key == k
    ensures var s1 := DoRemove(s, d, k, s.clock, o);
      Caught(s1.past, d, s1.devices[d].rows, k, s.devices[d].phase.page.records[i].row.updatedAt)
  {
    SentIfListed(s, d, k, i);
    PassedIsCaught(s, d, i);
    RemoveStillCaught(s, d, k, o, s.devices[d].phase.page.records[i].row.updatedAt);
  }

  /** A record the delta still has to come to. */
  lemma RemoveComingInOrder(s: System, d: Id, k: Key, o: Id, i: nat)
    requires L.Invariant(s) && HistorySound(s.past) && d in s.devices && o !in s.past.changes
    requires NotBackdated(s.devices[d], k) && NoFuture(s, d, k) && Timely(s.past, s.clock) && DeviceCaught(s, d, s.devices[d])
    requires IsApplying(s.devices[d]) && i >= s.devices[d].phase.next
    requires var rs := s.devices[d].phase.page.records; i < |rs| && Live(rs[i].row) && rs[i].key == k
    ensures var s1 := DoRemove(s, d, k, s.clock, o);
      Unseen(s1.past, d, s1.devices[d].rows, s.devices[d].phase.known.value, k)
  {
    var known := s.devices[d].phase.known.value;
    if k in known {
      SentIfListed(s, d, k, i);
      KnownIsCaught(s, d, i);
      RemoveStillCaught(s, d, k, o, known[k]);
    }
  }

  lemma RemoveInOrder(s: System, d: Id, k: Key, o: Id)
    requires L.Invariant(s) && HistorySound(s.past) && d in s.devices && o !in s.past.changes
    requires NotBackdated(s.devices[d], k) && NoFuture(s, d, k) && Timely(s.past, s.clock) && DeviceCaught(s, d, s.devices[d])
    ensures InOrder(DoRemove(s, d, k, s.clock, o), d, k)
  {
    var s1 := DoRemove(s, d, k, s.clock, o);
    var dev, p := s.devices[d], s.devices[d].phase;
    if R.Own(s, k) && Live(s.server.rows[k]) && s.server.rows[k].serverSeq <= dev.cursor {
      assert EverSent(s, k);
      RemoveStillCaught(s, d, k, o, s.server.rows[k].updatedAt);
    }
    if p.Pulling? {
      forall i | 0 <= i < |p.page.records| && Live(p.page.records[i].row) && p.page.records[i].key == k
        ensures i < p.next ==> Caught(s1.past, d, s1.devices[d].rows, k, p.page.records[i].row.updatedAt)
        ensures i >= p.next && p.known.Some? ==> Unseen(s1.past, d, s1.devices[d].rows, p.known.value, k)
      {
        if i < p.next {
          RemovePassedInOrder(s, d, k, o, i);
        } else if p.known.Some? {
          RemoveComingInOrder(s, d, k, o, i);
        }
      }
    }
  }

  lemma RemoveKeeps(s: System, d: Id, k: Key, o: Id)
    requires L.Invariant(s) && R.Invariant(s) && Invariant(s)
    requires Enabled(s, Remove(d, k, s.clock, o)) && Calm(s, Remove(d, k, s.clock, o))
    ensures Invariant(DoRemove(s, d, k, s.clock, o))
  {
    var s1 := DoRemove(s, d, k, s.clock, o);
    var c := s1.past.changes[o];
    L.RemoveIsRecorded(s, d, k, s.clock, o);
    FreshHasNoFuture(s, d, k);
    FreshIsWithin(s);
    RemoveInOrder(s, d, k, o);
    RemoveSound(s, d, k, o);
    RecordedKeeps(s, s1, o, c);
  }

  lemma RemoveSound(s: System, d: Id, k: Key, o: Id)
    requires L.Invariant(s) && HistorySound(s.past) && Timely(s.past, s.clock) && s.clock > 0
    requires d in s.devices && o !in s.past.changes && TimeIsFree(s, k, s.clock)
    requires L.Recorded(s, DoRemove(s, d, k, s.clock, o), o, DoRemove(s, d, k, s.clock, o).past.changes[o])
    ensures var s1 := DoRemove(s, d, k, s.clock, o);
      HistorySound(s1.past) && MoreChanges(s.past, s1.past) && s1.past.changes[o].at <= s.clock
  {
    var s1 := DoRemove(s, d, k, s.clock, o);
    RemoveCarries(s, d, k, o);
    if s1.past.changes[o].at != s.clock {
      QueuedDelete(s, d, k);
    }
    RecordedSound(s, s1, o, s1.past.changes[o]);
  }

  // ----- pushing -----

  lemma WireSound(s: System, s1: System, d: Id, b: Batch)
    requires Invariant(s) && L.PutOnWire(s, s1, d, b)
    ensures HistorySound(s1.past)
  {
    var rows := s.devices[d].rows;
    assert MoreChanges(s.past, s1.past);
    VersionsStay(s.past, s1.past);
    forall x | x in s1.past.sent && x.1.payload.Some?
      ensures Wrote(s1.past, x.1.key, x.1.payload.value.updatedAt, x.1.payload.value.body)
    {
      if x !in s.past.sent {
        var item :| item in b.items && MutationFor(item, rows) == Some(x.1);
        assert DeviceCaught(s, d, s.devices[d]);
      }
    }
  }

  lemma WireKeeps(s: System, s1: System, d: Id, b: Batch)
    requires AllWithin(s) && Invariant(s) && L.PutOnWire(s, s1, d, b)
    requires s1.devices[d].cursor == s.devices[d].cursor && !s1.devices[d].phase.Pulling?
    ensures Invariant(s1)
  {
    WireSound(s, s1, d, b);
    forall e ensures Quieter(s, s1, e) {
      SameHistory(s, s1, e);
    }
    NotPullingCaught(s, s1, d, s.devices[d], s1.devices[d]);
    OneDevice(s, s1, d);
  }

  lemma StartPushKeeps(s: System, d: Id, order: seq<Key>, size: Mutation -> nat)
    requires L.Invariant(s) && R.Invariant(s) && Invariant(s) && Enabled(s, StartPush(d, order, size))
    ensures Invariant(DoStartPush(s, d, order, size))
  {
    var b := L.StartPushIsOnWire(s, d, order, size);
    FreshIsWithin(s);
    WireKeeps(s, DoStartPush(s, d, order, size), d, b);
  }

  lemma AckKeeps(s: System, d: Id, wake: Id -> Time)
    requires R.Invariant(s) && Invariant(s) && Enabled(s, AckArrives(d, wake)) && s.devices[d].phase.ack.conflicts == []
    ensures Invariant(DoAckArrives(s, d, wake))
  {
    FreshIsWithin(s);
    HeardInFull(s, d, wake);
    var s1 := TakeAnswer(s, d, wake);
    RestKeeps(s, d, s1.devices[d].queue, Resting, s1.past.failed);
  }

  // ----- pulling -----

  lemma StartPullKeeps(s: System, d: Id, since: nat, limit: nat)
    requires R.Invariant(s) && Invariant(s) && Enabled(s, StartPull(d, since, limit))
    ensures Invariant(Do(s, StartPull(d, since, limit)))
  {
    R.PageReadFrom(s, since, limit);
    FreshIsWithin(s);
    NewPageCaught(s, Do(s, StartPull(d, since, limit)), d, since, PullPage(s.server, s.user, since, limit));
  }

  lemma NewPageCaught(s: System, s1: System, d: Id, since: nat, page: Page)
    requires AllWithin(s) && Invariant(s) && d in s.devices && R.ReadFrom(s, since, page)
    requires s1 == WithDevice(s, d, s.devices[d].(phase := Pulling(page, since, SeqOf(s.server, s.user), 0, None)))
    ensures Invariant(s1)
  {
    SameHistory(s, s1, d);
    DeviceStays(s, s1, d, s.devices[d].(phase := Resting));
    forall r | r in page.records ensures Stands(s1, r, SeqOf(s.server, s.user)) && RowSound(s1.past, r.key, r.row) {
      assert R.Own(s, r.key);
    }
    PhaseMoved(s, s1, d);
  }

  lemma BeginDeltaKeeps(s: System, d: Id)
    requires R.Invariant(s) && Invariant(s) && Enabled(s, BeginDelta(d))
    ensures Invariant(Do(s, BeginDelta(d)))
  {
    var s1 := Do(s, BeginDelta(d));
    FreshIsWithin(s);
    SameHistory(s, s1, d);
    BegunCaught(s, s1, d);
    PhaseMoved(s, s1, d);
  }

  lemma BegunCaught(s: System, s1: System, d: Id)
    requires Invariant(s) && Quieter(s, s1, d) && d in s.devices && WithinSeq(s, s.devices[d]) && s.devices[d].phase.Pulling?
    requires s.devices[d].phase.known.None? && d in s1.devices
    requires var dev := s.devices[d];
      s1.devices[d] == dev.(phase := dev.phase.(known := Some(Snapshot(dev.rows, dev.phase.page.records))))
    ensures DeviceCaught(s1, d, s1.devices[d])
  {
    DeviceStays(s, s1, d, s.devices[d]);
  }

  /** What a plain record does to the rows and to the view. */
  lemma PlainRecord(a: Applying, r: PageRow)
    requires Plain(a.rows, r) && ApplyKnown(a, r, true).Some?
    ensures var b := ApplyKnown(a, r, true).value; var k := r.key;
      if Live(r.row) then
        if k !in a.known || a.known[k] < r.row.updatedAt
        then b.rows == a.rows[k := Local(r.row.body, r.row.updatedAt)] && b.known == a.known[k := r.row.updatedAt]
        else b.rows == a.rows && b.known == a.known
      else
        (b.rows == a.rows && b.known == a.known) || (b.rows == a.rows - {k} && b.known == a.known - {k})
  {
  }

  /** One record was applied in a calm step. */
  ghost predicate Applied(s: System, s1: System, d: Id, r: PageRow) {
    && d in s.devices && d in s1.devices && IsApplying(s.devices[d])
    && var dev := s.devices[d]; var p := dev.phase;
       && p.next < |p.page.records| && r == p.page.records[p.next] && Plain(dev.rows, r)
       && AppliedNext(dev, true).Some?
       && var a := AppliedNext(dev, true).value;
          s1.devices[d] == dev.(rows := a.rows, phase := p.(next := p.next + 1, known := Some(a.known)))
          && s1 == s.(devices := s.devices[d := s1.devices[d]], past := s1.past) && s1.past == s.past
  }

  /** Rows and view, but for the record's own key, are as before. */
  lemma AppliedElsewhere(s: System, s1: System, d: Id, r: PageRow, j: Key)
    requires Applied(s, s1, d, r) && j != r.key
    ensures L.RowAt(s1.devices[d].rows, j) == L.RowAt(s.devices[d].rows, j)
    ensures j in s1.devices[d].phase.known.value <==> j in s.devices[d].phase.known.value
    ensures j in s.devices[d].phase.known.value ==> s1.devices[d].phase.known.value[j] == s.devices[d].phase.known.value[j]
  {
    PlainRecord(Applying(s.devices[d].rows, s.devices[d].phase.known.value, {}), r);
  }

  /** The server's row of a record in the page, as far as the device's cursor reaches, is the page's. */
  lemma PageIsCurrent(s: System, d: Id, r: PageRow)
    requires R.Invariant(s) && d in s.devices && s.devices[d].phase.Pulling? && r in s.devices[d].phase.page.records
    requires R.Own(s, r.key) && s.server.rows[r.key].serverSeq <= s.devices[d].cursor
    ensures s.server.rows[r.key] == r.row
  {
    assert R.DeviceFresh(s, d) && R.PageFresh(s, d);
  }

  /** The record's own row afterwards: at least as new as a live record, or deleted by the device since. */
  lemma AppliedOwn(s: System, s1: System, d: Id, r: PageRow)
    requires Invariant(s) && Applied(s, s1, d, r)
    requires r.key in s.devices[d].rows ==>
      r.key in s.devices[d].phase.known.value && s.devices[d].phase.known.value[r.key] == s.devices[d].rows[r.key].updatedAt
    ensures var rows, rows1 := s.devices[d].rows, s1.devices[d].rows;
      && (r.key in rows1 ==> (r.key in rows && rows1[r.key] == rows[r.key]) || (Live(r.row) && rows1[r.key] == Local(r.row.body, r.row.updatedAt)))
      && (r.key in rows && r.key in rows1 ==> rows1[r.key].updatedAt >= rows[r.key].updatedAt)
      && (Live(r.row) ==> Caught(s.past, d, rows1, r.key, r.row.updatedAt))
      && (r.key in rows && Live(r.row) ==> r.key in rows1)
  {
    var dev, p := s.devices[d], s.devices[d].phase;
    PlainRecord(Applying(dev.rows, p.known.value, {}), r);
    assert DeviceCaught(s, d, dev) && PageCaught(s, d, dev.rows, p.page, p.upTo, p.next, p.known);
    if Live(r.row) && r.key !in dev.rows {
      assert Unseen(s.past, d, dev.rows, p.known.value, p.page.records[p.next].key);
    }
  }

  /** What the cursor covers of the record's own key stays caught. */
  lemma AppliedCursor(s: System, s1: System, d: Id, r: PageRow, k: Key)
    requires R.Invariant(s) && Invariant(s) && Applied(s, s1, d, r)
    requires r.key in s.devices[d].rows ==>
      r.key in s.devices[d].phase.known.value && s.devices[d].phase.known.value[r.key] == s.devices[d].rows[r.key].updatedAt
    requires R.Own(s, k) && Live(s.server.rows[k]) && s.server.rows[k].serverSeq <= s.devices[d].cursor
    ensures Caught(s.past, d, s1.devices[d].rows, k, s.server.rows[k].updatedAt)
  {
    assert DeviceCaught(s, d, s.devices[d]);
    if k == r.key {
      assert r in s.devices[d].phase.page.records;
      PageIsCurrent(s, d, r);
      AppliedOwn(s, s1, d, r);
    } else {
      AppliedOther(s, s1, d, r, PageRow(k, s.server.rows[k]));
    }
  }

  lemma AppliedRow(s: System, s1: System, d: Id, r: PageRow, k: Key)
    requires Invariant(s) && Applied(s, s1, d, r) && k in s1.devices[d].rows
    requires r.key in s.devices[d].rows ==>
      r.key in s.devices[d].phase.known.value && s.devices[d].phase.known.value[r.key] == s.devices[d].rows[r.key].updatedAt
    ensures var row := s1.devices[d].rows[k]; Wrote(s.past, k, row.updatedAt, row.body) && Backed(s, d, k, row.updatedAt)
  {
    var dev, p := s.devices[d], s.devices[d].phase;
    assert DeviceCaught(s, d, dev) && PageCaught(s, d, dev.rows, p.page, p.upTo, p.next, p.known);
    assert r in p.page.records && Stands(s, r, p.upTo) && RowSound(s.past, r.key, r.row);
    if k == r.key {
      AppliedOwn(s, s1, d, r);
    } else {
      AppliedElsewhere(s, s1, d, r, k);
      assert L.RowAt(s1.devices[d].rows, k) == L.RowAt(dev.rows, k);
    }
  }

  lemma AppliedPage(s: System, s1: System, d: Id, r: PageRow)
    requires Invariant(s) && Applied(s, s1, d, r)
    requires r.key in s.devices[d].rows ==>
      r.key in s.devices[d].phase.known.value && s.devices[d].phase.known.value[r.key] == s.devices[d].rows[r.key].updatedAt
    requires var rs := s.devices[d].phase.page.records; forall i, j :: 0 <= i < j < |rs| ==> rs[i].key != rs[j].key
    ensures PhaseCaught(s1, d, s1.devices[d])
  {
    var dev, p := s.devices[d], s.devices[d].phase;
    var dev1, p1 := s1.devices[d], s1.devices[d].phase;
    assert DeviceCaught(s, d, dev) && PageCaught(s, d, dev.rows, p.page, p.upTo, p.next, p.known);
    forall q | q in p.page.records ensures Stands(s1, q, p.upTo) {
      assert Stands(s, q, p.upTo);
    }
    AppliedOwn(s, s1, d, r);
    forall i | 0 <= i < |p.page.records| && Live(p.page.records[i].row)
      ensures i < p1.next ==> Caught(s1.past, d, dev1.rows, p.page.records[i].key, p.page.records[i].row.updatedAt)
      ensures i >= p1.next ==> Unseen(s1.past, d, dev1.rows, p1.known.value, p.page.records[i].key)
    {
      if i != p.next {
        AppliedOther(s, s1, d, r, p.page.records[i]);
      }
    }
  }

  /** Another record of the page is caught, or still to come unseen, as before. */
  lemma AppliedOther(s: System, s1: System, d: Id, r: PageRow, q: PageRow)
    requires Applied(s, s1, d, r) && q.key != r.key
    ensures var rows, rows1 := s.devices[d].rows, s1.devices[d].rows;
      && (Caught(s.past, d, rows, q.key, q.row.updatedAt) ==> Caught(s.past, d, rows1, q.key, q.row.updatedAt))
      && (Unseen(s.past, d, rows, s.devices[d].phase.known.value, q.key) ==>
            Unseen(s.past, d, rows1, s1.devices[d].phase.known.value, q.key))
  {
    AppliedElsewhere(s, s1, d, r, q.key);
    assert L.RowAt(s1.devices[d].rows, q.key) == L.RowAt(s.devices[d].rows, q.key);
  }

  lemma AppliedDevice(s: System, s1: System, d: Id, r: PageRow)
    requires R.Invariant(s) && Invariant(s) && Applied(s, s1, d, r)
    requires r.key in s.devices[d].rows ==>
      r.key in s.devices[d].phase.known.value && s.devices[d].phase.known.value[r.key] == s.devices[d].rows[r.key].updatedAt
    requires var rs := s.devices[d].phase.page.records; forall i, j :: 0 <= i < j < |rs| ==> rs[i].key != rs[j].key
    ensures DeviceCaught(s1, d, s1.devices[d])
  {
    forall k | k in s1.devices[d].rows
      ensures Wrote(s1.past, k, s1.devices[d].rows[k].updatedAt, s1.devices[d].rows[k].body)
      ensures Backed(s1, d, k, s1.devices[d].rows[k].updatedAt)
    {
      AppliedRow(s, s1, d, r, k);
    }
    forall k | R.Own(s1, k) && Live(s1.server.rows[k]) && s1.server.rows[k].serverSeq <= s1.devices[d].cursor
      ensures Caught(s1.past, d, s1.devices[d].rows, k, s1.server.rows[k].updatedAt)
    {
      assert R.Own(s, k);
      AppliedCursor(s, s1, d, r, k);
    }
    AppliedPage(s, s1, d, r);
  }

  lemma NothingFell(s: System, d: Id, rows: map<Key, Local>, r: PageRow)
    requires d in s.devices
    requires forall k :: k in s.devices[d].rows && k !in rows ==> k == r.key
    ensures FallenNow(s.past, d, s.devices[d].rows, rows, r) == {}
  {
  }

  lemma ViewIsAccurate(s: System, d: Id)
    requires L.Invariant(s) && d in s.devices && IsApplying(s.devices[d]) && s.devices[d].phase.next < |s.devices[d].phase.page.records|
    ensures var dev := s.devices[d]; var k := dev.phase.page.records[dev.phase.next].key;
      k in dev.rows ==> k in dev.phase.known.value && dev.phase.known.value[k] == dev.rows[k].updatedAt
    ensures var rs := s.devices[d].phase.page.records; forall i, j :: 0 <= i < j < |rs| ==> rs[i].key != rs[j].key
  {
    var dev := s.devices[d];
    assert L.DeviceSafe(s, d, dev) && L.PageSafe(s, dev.rows, dev.phase.page, dev.phase.next, dev.phase.known);
    assert L.ViewOf(dev.rows, dev.phase.known.value, dev.phase.page.records[dev.phase.next].key);
  }

  lemma StepIsApplied(s: System, d: Id)
    requires Enabled(s, ApplyNext(d, true)) && Calm(s, ApplyNext(d, true))
    ensures Applied(s, DoApplyNext(s, d, true), d, s.devices[d].phase.page.records[s.devices[d].phase.next])
  {
    var dev := s.devices[d];
    var r := dev.phase.page.records[dev.phase.next];
    PlainRecord(Applying(dev.rows, dev.phase.known.value, {}), r);
    NothingFell(s, d, AppliedNext(dev, true).value.rows, r);
    assert s.past.fallen + {} == s.past.fallen;
  }

  lemma ApplyNextKeeps(s: System, d: Id)
    requires L.Invariant(s) && R.Invariant(s) && Invariant(s) && Enabled(s, ApplyNext(d, true)) && Calm(s, ApplyNext(d, true))
    ensures Invariant(DoApplyNext(s, d, true))
  {
    var s1 := DoApplyNext(s, d, true);
    StepIsApplied(s, d);
    ViewIsAccurate(s, d);
    AppliedDevice(s, s1, d, s.devices[d].phase.page.records[s.devices[d].phase.next]);
    FreshIsWithin(s);
    PhaseMoved(s, s1, d);
  }

  /** Every live row the cursor passes was in the page, and is caught. */
  lemma PassedCaught(s: System, d: Id, k: Key)
    requires R.Invariant(s) && Invariant(s) && d in s.devices && IsApplying(s.devices[d])
    requires s.devices[d].phase.next == |s.devices[d].phase.page.records|
    requires R.Own(s, k) && Live(s.server.rows[k])
    requires s.server.rows[k].serverSeq <= AdvanceCursor(s.devices[d].cursor, s.devices[d].phase.page.watermark)
    ensures Caught(s.past, d, s.devices[d].rows, k, s.server.rows[k].updatedAt)
  {
    var dev, p := s.devices[d], s.devices[d].phase;
    assert DeviceCaught(s, d, dev) && PageCaught(s, d, dev.rows, p.page, p.upTo, p.next, p.known);
    if s.server.rows[k].serverSeq > dev.cursor {
      PassedInPage(s, d, k);
      var i :| 0 <= i < |p.page.records| && p.page.records[i] == PageRow(k, s.server.rows[k]);
    }
  }

  lemma PassedInPage(s: System, d: Id, k: Key)
    requires R.Invariant(s) && d in s.devices && s.devices[d].phase.Pulling? && R.Own(s, k)
    requires s.devices[d].cursor < s.server.rows[k].serverSeq <= s.devices[d].phase.page.watermark
    ensures PageRow(k, s.server.rows[k]) in s.devices[d].phase.page.records
  {
    assert R.DeviceFresh(s, d) && R.PageFresh(s, d);
  }

  lemma FinishPullKeeps(s: System, d: Id)
    requires R.Invariant(s) && Invariant(s) && Enabled(s, FinishPull(d))
    ensures Invariant(Do(s, FinishPull(d)))
  {
    var s1 := Do(s, FinishPull(d));
    FinishedCaught(s, s1, d);
    FreshIsWithin(s);
    PhaseMoved(s, s1, d);
  }

  lemma FinishedCaught(s: System, s1: System, d: Id)
    requires R.Invariant(s) && Invariant(s) && d in s.devices && IsApplying(s.devices[d])
    requires s.devices[d].phase.next == |s.devices[d].phase.page.records|
    requires d in s1.devices && s1.user == s.user && s1.server == s.server && s1.past == s.past
    requires s1.devices[d] == s.devices[d].(cursor := AdvanceCursor(s.devices[d].cursor, s.devices[d].phase.page.watermark), phase := Resting)
    ensures DeviceCaught(s1, d, s1.devices[d])
  {
    assert DeviceCaught(s, d, s.devices[d]);
    forall k | R.Own(s1, k) && Live(s1.server.rows[k]) && s1.server.rows[k].serverSeq <= s1.devices[d].cursor
      ensures Caught(s1.past, d, s1.devices[d].rows, k, s1.server.rows[k].updatedAt)
    {
      assert R.Own(s, k);
      PassedCaught(s, d, k);
    }
  }

  // ----- the purge -----

  /** A row a device holds is not purged away under it: it would have to be as old as the tombstone, and
      an edit and a delete never have one time. */
  lemma HeldIsNotTaken(s: System, s1: System, d: Id, k: Key)
    requires R.Invariant(s) && Invariant(s) && d in s.devices && k in s.devices[d].rows && R.Taken(s, s1, k)
    ensures s.devices[d].rows[k].updatedAt > s.server.rows[k].updatedAt
  {
    var at := s.devices[d].rows[k].updatedAt;
    assert R.DeviceFresh(s, d) && R.Covers(s, d, k, at);
    assert DeviceCaught(s, d, s.devices[d]);
    assert RowSound(s.past, k, s.server.rows[k]);
    NoTie(s.past, k, at, s.devices[d].rows[k].body);
  }

  lemma StandingIsNotTaken(s: System, s1: System, d: Id, r: PageRow)
    requires R.Invariant(s) && d in s.devices && s.devices[d].phase.Pulling? && Live(r.row)
    requires Stands(s, r, s.devices[d].phase.upTo)
    ensures !R.Taken(s, s1, r.key)
  {
    assert R.DeviceFresh(s, d) && R.PageFresh(s, d);
  }

  /** A purge that takes no cards along: what goes is taken, and remembered at least as new as let go. */
  ghost predicate PlainPurge(s: System, s1: System) {
    && s1 == s.(server := s1.server, past := s.past.(purged := s1.past.purged, letGo := s1.past.letGo))
    && s1.server.seqs == s.server.seqs && R.Purged(s, s1)
    && (forall k :: R.Own(s, k) && !R.Own(s1, k) ==> R.Taken(s, s1, k))
    && (forall k :: k in s1.past.letGo ==> k in s1.past.purged && s1.past.letGo[k] <= s1.past.purged[k])
  }

  lemma PurgedSound(s: System, s1: System)
    requires Invariant(s) && PlainPurge(s, s1)
    ensures HistorySound(s1.past)
  {
    VersionsStay(s.past, s1.past);
    forall k | k in s1.past.purged ensures Deleted(s1.past, k, s1.past.purged[k]) {
      if R.Taken(s, s1, k) {
        assert R.Own(s, k) && RowSound(s.past, k, s.server.rows[k]);
      }
    }
  }

  lemma PurgedRow(s: System, s1: System, d: Id, k: Key)
    requires R.Invariant(s) && Invariant(s) && PlainPurge(s, s1) && d in s.devices && k in s.devices[d].rows
    ensures Backed(s1, d, k, s.devices[d].rows[k].updatedAt)
  {
    assert DeviceCaught(s, d, s.devices[d]);
    if R.Own(s, k) && !R.Own(s1, k) { HeldIsNotTaken(s, s1, d, k); }
  }

  lemma PurgedPage(s: System, s1: System, d: Id)
    requires R.Invariant(s) && Invariant(s) && PlainPurge(s, s1) && d in s.devices && s.devices[d].phase.Pulling?
    ensures PhaseCaught(s1, d, s.devices[d])
  {
    var dev, p := s.devices[d], s.devices[d].phase;
    assert DeviceCaught(s, d, dev);
    forall r | r in p.page.records ensures Stands(s1, r, p.upTo) {
      PurgedRecord(s, s1, d, r);
    }
    PageWith(s, s1, d, dev.rows, p.page, p.upTo, p.next, p.known);
  }

  lemma PurgedRecord(s: System, s1: System, d: Id, r: PageRow)
    requires R.Invariant(s) && PlainPurge(s, s1) && d in s.devices && s.devices[d].phase.Pulling?
    requires Stands(s, r, s.devices[d].phase.upTo)
    ensures Stands(s1, r, s.devices[d].phase.upTo)
  {
    if Live(r.row) { StandingIsNotTaken(s, s1, d, r); }
  }

  lemma PurgedDevice(s: System, s1: System, d: Id)
    requires R.Invariant(s) && Invariant(s) && PlainPurge(s, s1) && d in s.devices
    ensures DeviceCaught(s1, d, s.devices[d])
  {
    var dev := s.devices[d];
    VersionsStay(s.past, s1.past);
    assert DeviceCaught(s, d, dev);
    forall k | k in dev.rows ensures Backed(s1, d, k, dev.rows[k].updatedAt) {
      PurgedRow(s, s1, d, k);
    }
    forall k | R.Own(s1, k) && Live(s1.server.rows[k]) && s1.server.rows[k].serverSeq <= dev.cursor
      ensures Caught(s1.past, d, dev.rows, k, s1.server.rows[k].updatedAt)
    {
      assert R.Own(s, k) && s.server.rows[k] == s1.server.rows[k];
      CaughtStays(s.past, s1.past, d, dev.rows, k, s.server.rows[k].updatedAt);
    }
    if dev.phase.Pulling? { PurgedPage(s, s1, d); }
  }

  lemma PurgedKeeps(s: System, s1: System)
    requires R.Invariant(s) && Invariant(s) && PlainPurge(s, s1)
    ensures Invariant(s1)
  {
    PurgedSound(s, s1);
    VersionsStay(s.past, s1.past);
    forall k | R.Own(s1, k) ensures RowSound(s1.past, k, s1.server.rows[k]) {
      assert R.Own(s, k) && RowSound(s.past, k, s.server.rows[k]);
    }
    forall d | d in s1.devices ensures DeviceCaught(s1, d, s1.devices[d]) {
      PurgedDevice(s, s1, d);
    }
  }

  /** What the purge removes it lets go at the time it is remembered under. */
  lemma PurgeRemembers(s: System, k: Key)
    requires Calm(s, PurgeTombstones) && HistorySound(s.past) && k in Do(s, PurgeTombstones).past.letGo
    ensures var h := Do(s, PurgeTombstones).past; k in h.purged && h.letGo[k] <= h.purged[k]
  {
    var s1 := Do(s, PurgeTombstones);
    var gone := OwnRows(s.server.rows, s.user) - s1.server.rows.Keys;
    if k in gone {
      assert k in PurgeKeys(s.server, s.user, s.clock);
      assert k in PurgedNow(s.server, s.user, s.clock);
    }
  }

  lemma PurgeTakesAll(s: System, k: Key)
    requires Calm(s, PurgeTombstones) && R.Own(s, k) && !R.Own(Do(s, PurgeTombstones), k)
    ensures R.Taken(s, Do(s, PurgeTombstones), k)
  {
    assert k in PurgeKeys(s.server, s.user, s.clock);
    R.PurgeTakes(s, k);
  }

  lemma PurgeKeeps(s: System)
    requires R.Invariant(s) && Invariant(s) && Calm(s, PurgeTombstones)
    ensures Invariant(Do(s, PurgeTombstones))
  {
    var s1 := Do(s, PurgeTombstones);
    R.PurgeIsPurged(s);
    forall k | R.Own(s, k) && !R.Own(s1, k) ensures R.Taken(s, s1, k) {
      PurgeTakesAll(s, k);
    }
    forall k | k in s1.past.letGo ensures k in s1.past.purged && s1.past.letGo[k] <= s1.past.purged[k] {
      PurgeRemembers(s, k);
    }
    PurgedKeeps(s, s1);
  }

  // ----- devices and time -----

  lemma LeavingQuiet(s: System, s1: System, d: Id, e: Id)
    requires HistorySound(s.past) && s1.past == Leaving(s.past, d) && e != d
    requires s1.user == s.user && s1.server.rows == s.server.rows
    ensures Quieter(s, s1, e)
  {
  }

  lemma LeavingSound(h: History, d: Id)
    requires HistorySound(h)
    ensures HistorySound(Leaving(h, d)) && MoreChanges(h, Leaving(h, d))
  {
    VersionsStay(h, Leaving(h, d));
  }

  /** A device left, or started over with nothing. */
  lemma LeaveKeeps(s: System, s1: System, d: Id)
    requires AllWithin(s) && Invariant(s) && s1.past == Leaving(s.past, d)
    requires s1 == s.(server := s1.server, devices := s1.devices, past := s1.past)
    requires s1.server == s.server.(devices := s1.server.devices)
    requires forall e :: e in s1.devices && e != d ==> e in s.devices && s1.devices[e] == s.devices[e]
    requires d in s1.devices ==> s1.devices[d] == EMPTY_DEVICE
    ensures Invariant(s1)
  {
    LeavingSound(s.past, d);
    VersionsStay(s.past, s1.past);
    forall k | R.Own(s1, k) ensures RowSound(s1.past, k, s1.server.rows[k]) && s1.server.rows[k].serverSeq > 0 {
      assert R.Own(s, k) && RowSound(s.past, k, s.server.rows[k]);
    }
    forall e | e in s1.devices ensures DeviceCaught(s1, e, s1.devices[e]) {
      if e != d {
        LeavingQuiet(s, s1, d, e);
        DeviceStays(s, s1, e, s.devices[e]);
      }
    }
  }

  lemma QuietKeeps(s: System, s1: System)
    requires AllWithin(s) && Invariant(s) && s1.clock >= s.clock
    requires s1 == s.(server := s1.server, clock := s1.clock)
    requires s1.server == s.server.(devices := s1.server.devices, ops := s1.server.ops)
    ensures Invariant(s1)
  {
    forall k | R.Own(s1, k) ensures RowSound(s1.past, k, s1.server.rows[k]) {
      assert R.Own(s, k);
    }
    forall d | d in s1.devices ensures DeviceCaught(s1, d, s1.devices[d]) {
      DeviceStays(s, s1, d, s.devices[d]);
    }
  }

  // ----- runs -----

  lemma JoinKeeps(s: System, d: Id)
    requires AllWithin(s) && Invariant(s) && Enabled(s, Join(d))
    ensures Invariant(Do(s, Join(d)))
  {
    LeaveKeeps(s, Do(s, Join(d)), d);
  }

  lemma RetireKeeps(s: System, d: Id)
    requires AllWithin(s) && Invariant(s) && Enabled(s, Retire(d))
    ensures Invariant(Do(s, Retire(d)))
  {
    LeaveKeeps(s, Do(s, Retire(d)), d);
  }

  lemma QuietStepKeeps(s: System, step: Step)
    requires AllWithin(s) && Invariant(s) && Enabled(s, step) && (step.Tick? || step.ReportIn? || step.ForgetOps?)
    ensures Invariant(Do(s, step))
  {
    QuietKeeps(s, Do(s, step));
  }

  lemma RestStepKeeps(s: System, d: Id, step: Step)
    requires AllWithin(s) && Invariant(s) && Enabled(s, step) && step in {PushFails(d), PullFails(d), Resend(d)}
    ensures Invariant(Do(s, step))
  {
    RestKeeps(s, d, s.devices[d].queue, Do(s, step).devices[d].phase, s.past.failed);
  }

  lemma LocalStepKeeps(s: System, step: Step)
    requires L.Invariant(s) && R.Invariant(s) && Invariant(s) && Enabled(s, step) && Calm(s, step)
    requires step.Edit? || step.Remove? || step.StartPush?
    ensures Invariant(Do(s, step))
  {
    match step
    case Edit(d, k, body, _, o) => EditKeeps(s, d, k, body, o);
    case Remove(d, k, _, o) => RemoveKeeps(s, d, k, o);
    case StartPush(d, order, size) => StartPushKeeps(s, d, order, size);
  }

  lemma ServeStepKeeps(s: System, step: Step)
    requires L.Invariant(s) && R.Invariant(s) && Invariant(s) && Enabled(s, step) && Calm(s, step)
    requires step.ServeNext? || step.Straggler?
    ensures Invariant(Do(s, step))
  {
    match step
    case ServeNext(d, _, fault) => ServeNextKeeps(s, d, fault);
    case Straggler(d, m, _, fault) => StragglerKeeps(s, d, m, fault);
  }

  lemma AnswerStepKeeps(s: System, step: Step)
    requires R.Invariant(s) && Invariant(s) && Enabled(s, step) && Calm(s, step)
    requires step.Resend? || step.AckArrives? || step.PushFails?
    ensures Invariant(Do(s, step))
  {
    FreshIsWithin(s);
    match step
    case Resend(d) => RestStepKeeps(s, d, step);
    case AckArrives(d, wake) => AckKeeps(s, d, wake);
    case PushFails(d) => RestStepKeeps(s, d, step);
  }

  lemma WireStepKeeps(s: System, step: Step)
    requires L.Invariant(s) && R.Invariant(s) && Invariant(s) && Enabled(s, step) && Calm(s, step)
    requires R.IsPushStep(step) && !step.Edit? && !step.Remove? && !step.StartPush?
    ensures Invariant(Do(s, step))
  {
    if step.ServeNext? || step.Straggler? {
      ServeStepKeeps(s, step);
    } else {
      AnswerStepKeeps(s, step);
    }
  }

  predicate IsPullStep(step: Step) {
    step.StartPull? || step.BeginDelta? || step.ApplyNext? || step.FinishPull?
  }

  lemma PullStepKeeps(s: System, step: Step)
    requires L.Invariant(s) && R.Invariant(s) && Invariant(s) && Enabled(s, step) && Calm(s, step) && IsPullStep(step)
    ensures Invariant(Do(s, step))
  {
    match step
    case StartPull(d, since, limit) => StartPullKeeps(s, d, since, limit);
    case BeginDelta(d) => BeginDeltaKeeps(s, d);
    case ApplyNext(d, _) => ApplyNextKeeps(s, d);
    case FinishPull(d) => FinishPullKeeps(s, d);
  }

  lemma OtherStepKeeps(s: System, step: Step)
    requires L.Invariant(s) && R.Invariant(s) && Invariant(s) && Enabled(s, step) && Calm(s, step)
    requires !R.IsPushStep(step) && !IsPullStep(step)
    ensures Invariant(Do(s, step))
  {
    FreshIsWithin(s);
    match step
    case PullFails(d) => RestStepKeeps(s, d, step);
    case Join(d) => JoinKeeps(s, d);
    case Retire(d) => RetireKeeps(s, d);
    case PurgeTombstones => PurgeKeeps(s);
    case ReportIn(_) => QuietStepKeeps(s, step);
    case Tick(_) => QuietStepKeeps(s, step);
    case ForgetOps(_) => QuietStepKeeps(s, step);
  }

  /** Every calm step keeps what the invariants of both run theorems and this one say. */
  lemma StepKeeps(s: System, step: Step)
    requires L.Invariant(s) && R.Invariant(s) && Invariant(s) && Enabled(s, step) && Calm(s, step)
    ensures L.Invariant(Do(s, step)) && R.Invariant(Do(s, step)) && Invariant(Do(s, step))
  {
    L.StepKeeps(s, step);
    R.StepKeeps(s, step);
    if step.Edit? || step.Remove? || step.StartPush? {
      LocalStepKeeps(s, step);
    } else if R.IsPushStep(step) {
      WireStepKeeps(s, step);
    } else if IsPullStep(step) {
      PullStepKeeps(s, step);
    } else {
      OtherStepKeeps(s, step);
    }
  }

  lemma {:induction false} RunKeeps(s: System, steps: seq<Step>)
    requires L.Invariant(s) && R.Invariant(s) && Invariant(s) && Runs(s, steps) && CalmRun(s, steps)
    ensures L.Invariant(Run(s, steps)) && R.Invariant(Run(s, steps)) && Invariant(Run(s, steps))
    decreases |steps|
  {
    if steps != [] {
      StepKeeps(s, steps[0]);
      RunKeeps(Do(s, steps[0]), steps[1..]);
    }
  }

  lemma StartIsCaught(s: System)
    requires Start(s) && s.clock > 0
    ensures L.Invariant(s) && R.Invariant(s) && Invariant(s)
  {
    L.StartIsSafe(s);
    R.StartIsFresh(s);
  }

  // ----- the theorem -----

  /** The device has nothing left to send, pulled everything, never recorded its latest change to a record
      as failed, and did not drop its latest delete of a record that had been sent. */
  ghost predicate UpToDate(s: System, d: Id) {
    && d in s.devices && s.devices[d].queue == map[] && s.devices[d].cursor >= SeqOf(s.server, s.user)
    && (forall k :: (d, k) in s.past.lastOp ==>
          var o := s.past.lastOp[(d, k)];
          (d, o) !in s.past.failed && (o in s.past.cancelled ==> !s.past.cancelled[o]))
  }

  /** A change that nothing else accounts for has reached the server, in a version the server still has or
      has purged. */
  lemma LatestIsStored(s: System, d: Id, k: Key)
    requires L.Invariant(s) && Invariant(s) && UpToDate(s, d) && (d, k) in s.past.lastOp
    requires var o := s.past.lastOp[(d, k)];
      o in s.past.changes && o !in s.past.left && (s.past.changes[o].operation.Delete? ==> o !in s.past.unknown && o !in s.past.cancelled)
    ensures L.Dominated(s, k, s.past.changes[s.past.lastOp[(d, k)]].at)
  {
    var o := s.past.lastOp[(d, k)];
    assert L.ChangeSafe(s, o, s.past.changes[o]);
  }

  lemma BackedIsDominated(s: System, d: Id, k: Key, at: Time)
    requires L.Invariant(s) && Invariant(s) && UpToDate(s, d) && Backed(s, d, k, at)
    ensures L.Dominated(s, k, at)
  {
    if !(R.Own(s, k) && s.server.rows[k].updatedAt >= at) {
      LatestIsStored(s, d, k);
    }
  }

  /** A version some device wrote, and not older than the purged tombstone, was not let go. */
  lemma NotLetGo(s: System, k: Key, at: Time, body: Body)
    requires HistorySound(s.past) && Wrote(s.past, k, at, body) && R.NotStale(s, k, at)
    ensures k in s.past.letGo ==> s.past.letGo[k] < at
  {
    NoTie(s.past, k, at, body);
  }

  /** A local row of such a device is a version the server stores, or one at least as new is. */
  lemma HeldIsStored(s: System, d: Id, k: Key)
    requires L.Invariant(s) && R.Invariant(s) && Invariant(s) && UpToDate(s, d) && k in s.devices[d].rows
    ensures R.Own(s, k) && s.server.rows[k].updatedAt >= s.devices[d].rows[k].updatedAt
  {
    var at := s.devices[d].rows[k].updatedAt;
    assert DeviceCaught(s, d, s.devices[d]);
    BackedIsDominated(s, d, k, at);
    assert R.DeviceFresh(s, d);
    NotLetGo(s, k, at, s.devices[d].rows[k].body);
  }

  /** And not as a tombstone: the device obeyed every tombstone. */
  lemma HeldIsLive(s: System, d: Id, k: Key)
    requires R.Invariant(s) && Invariant(s) && UpToDate(s, d) && k in s.devices[d].rows
    requires R.Own(s, k) && s.server.rows[k].updatedAt >= s.devices[d].rows[k].updatedAt
    ensures Live(s.server.rows[k])
  {
    var at := s.devices[d].rows[k].updatedAt;
    assert DeviceCaught(s, d, s.devices[d]);
    assert R.DeviceFresh(s, d) && R.Covers(s, d, k, at);
    NoTie(s.past, k, at, s.devices[d].rows[k].body);
  }

  /** A live record the device does not hold would have been deleted by it, at a time the server has passed. */
  lemma LiveIsHeld(s: System, d: Id, k: Key)
    requires L.Invariant(s) && R.Invariant(s) && Invariant(s) && UpToDate(s, d) && R.Own(s, k) && Live(s.server.rows[k])
    ensures k in s.devices[d].rows && s.devices[d].rows[k].updatedAt >= s.server.rows[k].updatedAt
  {
    var row := s.server.rows[k];
    assert DeviceCaught(s, d, s.devices[d]) && Caught(s.past, d, s.devices[d].rows, k, row.updatedAt);
    if k !in s.devices[d].rows {
      GoneIsNotLive(s, d, k);
    }
  }

  lemma GoneIsNotLive(s: System, d: Id, k: Key)
    requires L.Invariant(s) && R.Invariant(s) && Invariant(s) && UpToDate(s, d) && R.Own(s, k) && Live(s.server.rows[k])
    ensures !Gone(s.past, d, k, s.server.rows[k].updatedAt)
  {
    var row := s.server.rows[k];
    assert RowSound(s.past, k, row);
    NoTie(s.past, k, row.updatedAt, row.body);
    NotLetGo(s, k, row.updatedAt, row.body);
    if Gone(s.past, d, k, row.updatedAt) {
      LatestIsStored(s, d, k);
    }
  }

  lemma StateConverges(s: System, d: Id, k: Key)
    requires L.Invariant(s) && R.Invariant(s) && Invariant(s) && UpToDate(s, d)
    ensures AsServed(s, d, k)
  {
    if k in s.devices[d].rows {
      HeldIsStored(s, d, k);
      HeldIsLive(s, d, k);
    }
    if R.Own(s, k) && Live(s.server.rows[k]) {
      LiveIsHeld(s, d, k);
      HeldIsStored(s, d, k);
      SameVersion(s, d, k);
    }
  }

  lemma SameVersion(s: System, d: Id, k: Key)
    requires Invariant(s) && d in s.devices && k in s.devices[d].rows && R.Own(s, k) && Live(s.server.rows[k])
    requires s.devices[d].rows[k].updatedAt == s.server.rows[k].updatedAt
    ensures StoredBody(s.devices[d].rows[k].body) == s.server.rows[k].body
  {
    assert DeviceCaught(s, d, s.devices[d]) && RowSound(s.past, k, s.server.rows[k]);
    OneBody(s.past, k, s.server.rows[k].updatedAt, s.devices[d].rows[k].body, s.server.rows[k].body);
  }

  /** The device holds the record exactly if the server shows it, at the server's time and with the contents
      the server stores for it. */
  predicate AsServed(s: System, d: Id, k: Key)
    requires d in s.devices
  {
    var rows := s.devices[d].rows;
    && (k in rows <==> R.Own(s, k) && Live(s.server.rows[k]))
    && (k in rows && R.Own(s, k) ==>
          rows[k].updatedAt == s.server.rows[k].updatedAt && StoredBody(rows[k].body) == s.server.rows[k].body)
  }

  /** In every calm run from a new account: a device that has nothing left to send and has pulled everything
      holds exactly the records the server shows, at its times and with its contents. */
  lemma Converges(start: System, steps: seq<Step>, d: Id, k: Key)
    requires Start(start) && start.clock > 0 && Runs(start, steps) && CalmRun(start, steps)
    requires UpToDate(Run(start, steps), d)
    ensures AsServed(Run(start, steps), d, k)
  {
    StartIsCaught(start);
    RunKeeps(start, steps);
    StateConverges(Run(start, steps), d, k);
  }

  /** So any two such devices hold the same records at the same times, and store the same contents for them. */
  lemma DevicesConverge(start: System, steps: seq<Step>, d: Id, e: Id, k: Key)
    requires Start(start) && start.clock > 0 && Runs(start, steps) && CalmRun(start, steps)
    requires UpToDate(Run(start, steps), d) && UpToDate(Run(start, steps), e)
    ensures var s := Run(start, steps); var mine, theirs := s.devices[d].rows, s.devices[e].rows;
      && (k in mine <==> k in theirs)
      && (k in mine && k in theirs ==>
            mine[k].updatedAt == theirs[k].updatedAt && StoredBody(mine[k].body) == StoredBody(theirs[k].body))
  {
    Converges(start, steps, d, k);
    Converges(start, steps, e, k);
  }
}
