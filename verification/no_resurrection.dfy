// No stale resurrection: once a tombstone is purged, no device of the run holds, is sending, or is
// about to receive a version of that record older than the tombstone, and the server never again
// shows one.

module NoResurrection {
  import opened SyncTypes
  import opened LastWriteWins
  import opened ServerApply
  import opened Validation
  import opened PushBatch
  import opened Devices
  import opened Paging
  import opened Outbox
  import opened ClientPull
  import opened PullDelta
  import opened SyncSystem
  import opened AdmittedBatch

  /** A late upsert that the server can no longer tell from a new record, though it is older than the
      record's purged tombstone: its op id is not logged and the record is not stored. */
  predicate StaleLate(s: System, m: Mutation) {
    m.operation.Upsert? && m.payload.Some? && m.key in s.past.purged && m.payload.value.updatedAt < s.past.purged[m.key]
    && (s.user, m.opId) !in s.server.ops && m.key !in s.server.rows
  }

  /** The hypotheses on single steps: one clock for all, no request is delivered so late that it is stale
      in this sense, and a purge runs while every device of the run is active. */
  ghost predicate Strict(s: System, step: Step) {
    match step
    case Edit(_, _, _, at, _) => at == s.clock
    case Remove(_, _, at, _) => at == s.clock
    case Straggler(_, m, _, _) => !StaleLate(s, m)
    case PurgeTombstones => forall d :: d in s.devices ==> d in Active(s.server.devices, s.user, s.clock)
    case _ => true
  }

  ghost predicate StrictRun(s: System, steps: seq<Step>)
    requires Runs(s, steps)
    decreases |steps|
  {
    steps == [] || (Strict(s, steps[0]) && StrictRun(Do(s, steps[0]), steps[1..]))
  }

  // ----- the invariant -----

  function LastPulled(s: System, d: Id): nat {
    if d in s.server.devices && s.server.devices[d].owner == s.user then s.server.devices[d].lastPulledSeq else 0
  }

  /** How far the device has come, by its own cursor or by what the server believes. */
  function Bound(s: System, d: Id): nat
    requires d in s.devices
  {
    if s.devices[d].cursor >= LastPulled(s, d) then s.devices[d].cursor else LastPulled(s, d)
  }

  predicate NotStale(s: System, k: Key, at: Time) {
    k in s.past.purged ==> at >= s.past.purged[k]
  }

  predicate Own(s: System, k: Key) {
    k in s.server.rows && s.server.rows[k].owner == s.user
  }

  /** A version is not older than a purged tombstone, nor than a stored one the device is past. */
  predicate Covers(s: System, d: Id, k: Key, at: Time)
    requires d in s.devices
  {
    && at <= s.clock && NotStale(s, k, at)
    && (Own(s, k) && !Live(s.server.rows[k]) && s.server.rows[k].serverSeq <= Bound(s, d) ==> at >= s.server.rows[k].updatedAt)
  }

  /** An operation as devices send it: nothing in the future, nothing already deleted. */
  predicate SentFresh(m: Mutation, now: Time) {
    && m.updatedAt <= now
    && (m.payload.Some? ==> m.payload.value.updatedAt <= now && m.payload.value.deletedAt.None?)
    && (m.operation.Upsert? ==> m.payload.Some? && m.payload.value.id == m.key.id)
  }

  predicate MutationCovers(s: System, d: Id, m: Mutation)
    requires d in s.devices
  {
    SentFresh(m, s.clock) && (m.operation.Upsert? ==> Covers(s, d, m.key, m.payload.value.updatedAt))
  }

  /** The view of a record still to come lets it win wherever the local row is older. */
  predicate ViewFresh(rows: map<Key, Local>, known: map<Key, Time>, r: PageRow) {
    r.key in rows ==> (r.key in known && known[r.key] <= rows[r.key].updatedAt) || rows[r.key].updatedAt >= r.row.updatedAt
  }

  /** A page in hand: its live records are not stale, and where the server has not moved past the snapshot
      it still stores what the page says. */
  ghost predicate PageRead(s: System, d: Id, page: Page, since: nat, upTo: nat)
    requires d in s.devices
  {
    && since <= s.devices[d].cursor && Bound(s, d) <= upTo <= SeqOf(s.server, s.user) && page.watermark <= upTo
    && (forall i, j :: 0 <= i < j < |page.records| ==> page.records[i].key != page.records[j].key)
    && (forall r :: r in page.records ==> r.row.updatedAt <= s.clock && (Live(r.row) ==> NotStale(s, r.key, r.row.updatedAt)))
    && (forall r :: r in page.records && Own(s, r.key) && s.server.rows[r.key].serverSeq <= upTo ==> s.server.rows[r.key] == r.row)
    && (forall k :: Own(s, k) && since < s.server.rows[k].serverSeq <= page.watermark ==> PageRow(k, s.server.rows[k]) in page.records)
  }

  /** A delivered tombstone that the server still stores is not overridden by an older local row. */
  predicate Obeyed(rows: map<Key, Local>, r: PageRow) {
    !Live(r.row) && r.key in rows ==> rows[r.key].updatedAt >= r.row.updatedAt
  }

  /** The applied tombstones are obeyed, and those to come will win. */
  ghost predicate PageObeyed(rows: map<Key, Local>, page: Page, next: nat, known: Option<map<Key, Time>>) {
    && next <= |page.records|
    && (forall i :: 0 <= i < next ==> Obeyed(rows, page.records[i]))
    && (known.Some? ==> forall i :: next <= i < |page.records| ==> ViewFresh(rows, known.value, page.records[i]))
  }

  ghost predicate PageFresh(s: System, d: Id)
    requires d in s.devices && s.devices[d].phase.Pulling?
  {
    var p := s.devices[d].phase;
    PageRead(s, d, p.page, p.since, p.upTo) && PageObeyed(s.devices[d].rows, p.page, p.next, p.known)
  }

  ghost predicate PhaseFresh(s: System, d: Id)
    requires d in s.devices
  {
    match s.devices[d].phase
    case Resting => true
    case Pushing(items, request, admitted, done, ack) =>
      && (forall item :: item in items ==> item.createdAt <= s.clock)
      && (forall m :: m in request ==> MutationCovers(s, d, m))
      && (forall m :: m in admitted ==> MutationCovers(s, d, m) && s.check(m).None?)
      && (forall c :: c in ack.conflicts ==> Covers(s, d, Key(Topics, c.topicId), c.updatedAt))
    case Pulling(_, _, _, _, _) => PageFresh(s, d)
  }

  ghost predicate DeviceFresh(s: System, d: Id)
    requires d in s.devices
  {
    && Bound(s, d) <= SeqOf(s.server, s.user)
    && (forall k :: k in s.devices[d].rows ==> Covers(s, d, k, s.devices[d].rows[k].updatedAt))
    && (forall k :: k in s.devices[d].queue ==> s.devices[d].queue[k].createdAt <= s.clock)
    && PhaseFresh(s, d)
  }

  ghost predicate ServerFresh(s: System) {
    && SeqsSound(s.server, s.user)
    && (forall k :: Own(s, k) ==> s.server.rows[k].updatedAt <= s.clock && NotStale(s, k, s.server.rows[k].updatedAt))
    && (forall d :: LastPulled(s, d) <= SeqOf(s.server, s.user))
    && (forall k :: k in s.past.purged ==> s.past.purged[k] <= s.clock)
  }

  ghost predicate Invariant(s: System) {
    && Sound(s.check) && ServerFresh(s)
    && (forall x :: x in s.past.sent ==> SentFresh(x.1, s.clock))
    && (forall d :: d in s.devices ==> DeviceFresh(s, d))
  }

  // ----- frames -----

  /** The server only moved on: rows were kept, dropped, or rewritten above the old sequence. */
  ghost predicate MovedOn(s: System, s1: System) {
    && s1.user == s.user && s1.check == s.check && s1.clock >= s.clock && s1.past.purged == s.past.purged
    && SeqOf(s.server, s.user) <= SeqOf(s1.server, s.user)
    && (forall k :: Own(s1, k) ==> (Own(s, k) && s1.server.rows[k] == s.server.rows[k])
                                   || s1.server.rows[k].serverSeq > SeqOf(s.server, s.user))
  }

  lemma CoversKept(s: System, s1: System, d: Id, k: Key, at: Time)
    requires d in s.devices && d in s1.devices && MovedOn(s, s1) && Covers(s, d, k, at)
    requires Bound(s1, d) <= Bound(s, d) <= SeqOf(s.server, s.user)
    ensures Covers(s1, d, k, at)
  {
  }

  /** A device none of whose data changed stays fresh while the server moves on. */
  lemma DeviceKept(s: System, s1: System, d: Id)
    requires d in s.devices && d in s1.devices && s1.devices[d] == s.devices[d]
    requires DeviceFresh(s, d) && MovedOn(s, s1) && Bound(s1, d) <= Bound(s, d)
    ensures DeviceFresh(s1, d)
  {
    forall k | k in s1.devices[d].rows ensures Covers(s1, d, k, s1.devices[d].rows[k].updatedAt) {
      CoversKept(s, s1, d, k, s1.devices[d].rows[k].updatedAt);
    }
    PhaseKept(s, s1, d);
  }

  lemma PhaseKept(s: System, s1: System, d: Id)
    requires d in s.devices && d in s1.devices && s1.devices[d].phase == s.devices[d].phase
    requires s1.devices[d].cursor == s.devices[d].cursor && s1.devices[d].rows == s.devices[d].rows
    requires DeviceFresh(s, d) && MovedOn(s, s1) && Bound(s1, d) <= Bound(s, d)
    ensures PhaseFresh(s1, d)
  {
    var p := s.devices[d].phase;
    match p
    case Pushing(items, request, admitted, done, ack) =>
      forall m | m in request || m in admitted ensures MutationCovers(s1, d, m) {
        assert MutationCovers(s, d, m);
        if m.operation.Upsert? { CoversKept(s, s1, d, m.key, m.payload.value.updatedAt); }
      }
      forall c | c in ack.conflicts ensures Covers(s1, d, Key(Topics, c.topicId), c.updatedAt) {
        CoversKept(s, s1, d, Key(Topics, c.topicId), c.updatedAt);
      }
    case Pulling(_, _, _, _, _) =>
      assert PageFresh(s, d);
    case Resting =>
  }

  // ----- serving -----

  /** A stored row after an apply: as it was, or rewritten no later than now, under the present time or
      at least as new as before; a row that was not stored is the pushed version. */
  predicate RowAfter(s: Server, user: Id, m: Mutation, now: Time, rows: map<Key, Row>, k: Key)
    requires SentFresh(m, now)
  {
    k in rows && !(k in s.rows && rows[k] == s.rows[k]) ==>
      && rows[k].updatedAt <= now && rows[k].owner == user
      && (if k in s.rows then s.rows[k].owner == user && (rows[k].updatedAt == now || rows[k].updatedAt >= s.rows[k].updatedAt)
          else m.operation.Upsert? && k == m.key && rows[k].updatedAt == m.payload.value.updatedAt)
  }

  lemma DeletedRows(s: Server, user: Id, m: Mutation, now: Time, hard: bool, k: Key)
    requires m.operation.Delete? && ApplyDelete(s, user, m, now, hard).Commit? && SentFresh(m, now)
    ensures RowAfter(s, user, m, now, ApplyDelete(s, user, m, now, hard).server.rows, k)
  {
  }

  lemma CardUpsertRows(s: Server, user: Id, device: Id, m: Mutation, now: Time, k: Key)
    requires m.operation.Upsert? && m.key.table.Cards? && ApplyCardUpsert(s, user, device, m).Commit?
    requires SentFresh(m, now)
    ensures RowAfter(s, user, m, now, ApplyCardUpsert(s, user, device, m).server.rows, k)
  {
  }

  /** Settling a clash rewrites at most the loser, under the present time. */
  lemma SettledRows(s: Server, user: Id, id: Id, title: string, at: Time, other: Key, now: Time, k: Key)
    requires other in s.rows
    ensures var rows := SettleTitle(s, user, id, title, at, other, now).0.rows;
      (k in rows <==> k in s.rows)
      && (k in rows && rows[k] != s.rows[k] ==>
            rows[k].updatedAt == now && rows[k].owner == s.rows[k].owner && (k == other || k == Key(Topics, id) || k == Key(Topics, other.id)))
  {
  }

  /** The pushed topic is stored over a settled state. */
  lemma StoredTopicRow(s: Server, settled: Server, user: Id, m: Mutation, now: Time, title: string, k: Key)
    requires SentFresh(m, now) && m.operation.Upsert? && m.key.table.Topics?
    requires m.key in s.rows ==> s.rows[m.key].owner == user && m.payload.value.updatedAt >= s.rows[m.key].updatedAt
    requires (m.key in settled.rows <==> m.key in s.rows) && (m.key in s.rows ==> settled.rows[m.key].owner == user)
    requires k != m.key ==> RowAfter(s, user, m, now, settled.rows, k)
    ensures RowAfter(s, user, m, now, PutRow(settled, user, m.key, Retitled(UpsertRow(settled, user, m.key, m.payload.value), title)).rows, k)
  {
  }

  lemma TopicUpsertRows(s: Server, user: Id, device: Id, m: Mutation, now: Time, k: Key)
    requires m.operation.Upsert? && m.key.table.Topics? && ApplyTopicUpsert(s, user, device, m, now).Commit?
    requires SentFresh(m, now)
    ensures RowAfter(s, user, m, now, ApplyTopicUpsert(s, user, device, m, now).server.rows, k)
  {
    var r := m.payload.value;
    if !Loses(s, m.key, device, r) {
      var clash := FindClash(s.rows, user, r.id, r.body.title);
      var s1 := if clash.None? then s else SettleTitle(s, user, r.id, r.body.title, r.updatedAt, clash.value, now).0;
      if clash.Some? {
        SettledRows(s, user, r.id, r.body.title, r.updatedAt, clash.value, now, k);
        SettledRows(s, user, r.id, r.body.title, r.updatedAt, clash.value, now, m.key);
      }
      var after := ApplyTopicUpsert(s, user, device, m, now).server.rows;
      StoredTopicRow(s, s1, user, m, now, after[m.key].body.title, k);
    }
  }

  lemma AppliedRows(s: Server, user: Id, device: Id, m: Mutation, now: Time, hard: bool, k: Key)
    requires ApplyMutation(s, user, device, m, now, hard).Commit? && SentFresh(m, now)
    ensures RowAfter(s, user, m, now, ApplyMutation(s, user, device, m, now, hard).server.rows, k)
  {
    if m.operation.Delete? {
      DeletedRows(s, user, m, now, hard, k);
    } else if m.key.table.Topics? {
      TopicUpsertRows(s, user, device, m, now, k);
    } else {
      CardUpsertRows(s, user, device, m, now, k);
    }
  }

  /** One row after serving one operation that is not stale: no later than now, and not stale. */
  lemma ServedRowFresh(s: System, d: Id, m: Mutation, hard: bool, fault: Fault, k: Key)
    requires ServerFresh(s) && SentFresh(m, s.clock) && Addressed(m) && !StaleLate(s, m)
    ensures var server := ApplyOp(s.server, s.user, d, m, hard, Env(s.clock, fault)).0;
      k in server.rows && server.rows[k].owner == s.user ==>
        server.rows[k].updatedAt <= s.clock && NotStale(s, k, server.rows[k].updatedAt)
  {
    var server := ApplyOp(s.server, s.user, d, m, hard, Env(s.clock, fault)).0;
    if ApplyMutation(s.server, s.user, d, m, s.clock, hard).Commit? {
      AppliedRows(s.server, s.user, d, m, s.clock, hard, k);
    }
    if k in s.server.rows && s.server.rows[k].owner == s.user { assert Own(s, k); }
  }

  lemma ServingAdvances(s: Server, user: Id, device: Id, m: Mutation, hard: bool, env: Env)
    ensures ApplyOp(s, user, device, m, hard, env).0 == s || Advances(s, user, ApplyOp(s, user, device, m, hard, env).0)
  {
    if ApplyMutation(s, user, device, m, env.now, hard).Commit? {
      ApplyAdvances(s, user, device, m, env.now, hard);
    }
  }

  lemma ServingMovesOn(s: System, d: Id, m: Mutation, hard: bool, fault: Fault)
    requires Invariant(s) && SentFresh(m, s.clock) && Addressed(m) && !StaleLate(s, m)
    ensures var server := ApplyOp(s.server, s.user, d, m, hard, Env(s.clock, fault)).0;
      var s1 := Served(s, server, m);
      MovedOn(s, s1) && ServerFresh(s1) && server.devices == s.server.devices
  {
    var server := ApplyOp(s.server, s.user, d, m, hard, Env(s.clock, fault)).0;
    var s1 := Served(s, server, m);
    ServingAdvances(s.server, s.user, d, m, hard, Env(s.clock, fault));
    forall k | Own(s1, k) ensures s1.server.rows[k].updatedAt <= s1.clock && NotStale(s1, k, s1.server.rows[k].updatedAt) {
      ServedRowFresh(s, d, m, hard, fault, k);
    }
    forall e ensures LastPulled(s1, e) == LastPulled(s, e) {
    }
  }

  lemma ConflictIsNow(s: Server, user: Id, device: Id, m: Mutation, hard: bool, env: Env, ack: Ack)
    ensures forall c :: c in Noted(ack, m.opId, ApplyOp(s, user, device, m, hard, env).1).conflicts ==>
              c in ack.conflicts || c.updatedAt == env.now
  {
  }

  /** A version made right now covers everything. */
  lemma NowCovers(s: System, d: Id, k: Key)
    requires ServerFresh(s) && d in s.devices
    ensures Covers(s, d, k, s.clock)
  {
    assert Own(s, k) ==> s.server.rows[k].updatedAt <= s.clock;
  }

  /** Serving one operation: all devices stay fresh. */
  lemma ServedStateKeeps(s: System, d: Id, m: Mutation, hard: bool, fault: Fault)
    requires Invariant(s) && SentFresh(m, s.clock) && Addressed(m) && !StaleLate(s, m)
    ensures Invariant(Served(s, ApplyOp(s.server, s.user, d, m, hard, Env(s.clock, fault)).0, m))
  {
    ServingMovesOn(s, d, m, hard, fault);
    var mid := Served(s, ApplyOp(s.server, s.user, d, m, hard, Env(s.clock, fault)).0, m);
    forall e | e in mid.devices ensures DeviceFresh(mid, e) {
      assert LastPulled(mid, e) == LastPulled(s, e);
      DeviceKept(s, mid, e);
    }
  }

  /** Only one device changed. */
  lemma OneDevice(s: System, s1: System, d: Id)
    requires Invariant(s) && d in s1.devices && DeviceFresh(s1, d)
    requires s1.user == s.user && s1.check == s.check && s1.server == s.server && s1.clock == s.clock && s1.past.purged == s.past.purged
    requires s1.devices == s.devices[d := s1.devices[d]]
    requires forall x :: x in s1.past.sent ==> SentFresh(x.1, s1.clock)
    ensures Invariant(s1)
  {
    forall e ensures LastPulled(s1, e) == LastPulled(s, e) {
    }
    forall e | e in s1.devices && e != d ensures DeviceFresh(s1, e) {
      DeviceKept(s, s1, e);
    }
  }

  /** A verdict is noted: conflicts are known ones or carry the present time. */
  lemma NotingKeeps(s: System, d: Id, ack: Ack)
    requires Invariant(s) && d in s.devices && s.devices[d].phase.Pushing?
    requires s.devices[d].phase.done < |s.devices[d].phase.admitted|
    requires forall c :: c in ack.conflicts ==> c in s.devices[d].phase.ack.conflicts || c.updatedAt == s.clock
    ensures Invariant(Answered(s, d, ack))
  {
    var s1 := Answered(s, d, ack);
    assert DeviceFresh(s, d);
    SameBound(s, s1, d);
    forall c | c in ack.conflicts ensures Covers(s1, d, Key(Topics, c.topicId), c.updatedAt) {
      NowCovers(s, d, Key(Topics, c.topicId));
    }
    OneDevice(s, s1, d);
  }

  /** Devices that agree on how far they have come agree on what is covered. */
  lemma SameBound(s: System, s1: System, d: Id)
    requires d in s.devices && d in s1.devices && s1.devices[d].cursor == s.devices[d].cursor
    requires s1.user == s.user && s1.server == s.server && s1.clock == s.clock && s1.past.purged == s.past.purged
    ensures Bound(s1, d) == Bound(s, d)
    ensures forall k, at :: Covers(s1, d, k, at) == Covers(s, d, k, at)
    ensures forall m :: MutationCovers(s1, d, m) == MutationCovers(s, d, m)
  {
  }

  lemma SamePage(s: System, s1: System, d: Id, page: Page, since: nat, upTo: nat)
    requires d in s.devices && d in s1.devices && s1.devices[d].cursor == s.devices[d].cursor
    requires s1.user == s.user && s1.server == s.server && s1.clock == s.clock && s1.past.purged == s.past.purged
    requires PageRead(s, d, page, since, upTo)
    ensures PageRead(s1, d, page, since, upTo)
  {
    SameBound(s, s1, d);
  }

  lemma ServedCovers(s: System, d: Id, m: Mutation)
    requires Invariant(s) && d in s.devices && s.devices[d].phase.Pushing? && m in s.devices[d].phase.admitted
    ensures MutationCovers(s, d, m) && s.check(m).None?
  {
    assert DeviceFresh(s, d);
  }

  lemma ServeNextKeeps(s: System, d: Id, hard: bool, fault: Fault)
    requires Invariant(s) && Enabled(s, ServeNext(d, hard, fault))
    ensures Invariant(DoServeNext(s, d, hard, fault))
  {
    var p := s.devices[d].phase;
    var m := p.admitted[p.done];
    ServedCovers(s, d, m);
    var (server, verdict) := ApplyOp(s.server, s.user, d, m, hard, Env(s.clock, fault));
    ServedStateKeeps(s, d, m, hard, fault);
    ConflictIsNow(s.server, s.user, d, m, hard, Env(s.clock, fault), p.ack);
    NotingKeeps(Served(s, server, m), d, Noted(p.ack, m.opId, verdict));
  }

  /** A late request that is not stale does no harm. */
  lemma StragglerKeeps(s: System, d: Id, m: Mutation, hard: bool, fault: Fault)
    requires Invariant(s) && Enabled(s, Straggler(d, m, hard, fault)) && !StaleLate(s, m)
    ensures Invariant(DoStraggler(s, d, m, hard, fault))
  {
    assert SentFresh((d, m).1, s.clock);
    ClampExact(m, s.clock);
    ServedStateKeeps(s, d, m, hard, fault);
  }

  // ----- local changes -----

  /** Rows and queue of one device changed, within what is covered; its phase did not. */
  ghost predicate DataChanged(s: System, s1: System, d: Id) {
    && d in s.devices && d in s1.devices
    && s1.user == s.user && s1.check == s.check && s1.server == s.server && s1.clock == s.clock
    && s1.past.purged == s.past.purged && s1.past.sent == s.past.sent
    && s1.devices == s.devices[d := s.devices[d].(rows := s1.devices[d].rows, queue := s1.devices[d].queue)]
  }

  lemma DataKeeps(s: System, s1: System, d: Id)
    requires Invariant(s) && DataChanged(s, s1, d)
    requires forall k :: k in s1.devices[d].rows ==> Covers(s, d, k, s1.devices[d].rows[k].updatedAt)
    requires forall k :: k in s1.devices[d].queue ==> s1.devices[d].queue[k].createdAt <= s.clock
    requires s.devices[d].phase.Pulling? ==> PageFresh(s1, d)
    ensures Invariant(s1)
  {
    assert DeviceFresh(s, d);
    SameBound(s, s1, d);
    OneDevice(s, s1, d);
  }

  /** Rows that stay obey as before; rows written under the present time are newer than any record. */
  lemma NewerRowsObey(rows: map<Key, Local>, rows1: map<Key, Local>, now: Time, page: Page, next: nat, known: Option<map<Key, Time>>)
    requires PageObeyed(rows, page, next, known)
    requires forall r :: r in page.records ==> r.row.updatedAt <= now
    requires forall j :: j in rows1 ==> (j in rows && rows1[j] == rows[j]) || rows1[j].updatedAt == now
    ensures PageObeyed(rows1, page, next, known)
  {
    forall i | 0 <= i < |page.records|
      ensures i < next ==> Obeyed(rows1, page.records[i])
      ensures i >= next && known.Some? ==> ViewFresh(rows1, known.value, page.records[i])
    {
      assert page.records[i] in page.records;
    }
  }

  /** A record's local row was removed, or written under the present time: a page in hand stays fresh. */
  lemma LocalChangePage(s: System, s1: System, d: Id)
    requires Invariant(s) && DataChanged(s, s1, d) && s.devices[d].phase.Pulling?
    requires forall j :: j in s1.devices[d].rows ==>
      (j in s.devices[d].rows && s1.devices[d].rows[j] == s.devices[d].rows[j]) || s1.devices[d].rows[j].updatedAt == s.clock
    ensures PageFresh(s1, d)
  {
    var p := s.devices[d].phase;
    assert DeviceFresh(s, d);
    SamePage(s, s1, d, p.page, p.since, p.upTo);
    NewerRowsObey(s.devices[d].rows, s1.devices[d].rows, s.clock, p.page, p.next, p.known);
  }

  lemma EditKeeps(s: System, d: Id, k: Key, body: Body, opId: Id)
    requires Invariant(s) && Enabled(s, Edit(d, k, body, s.clock, opId))
    ensures Invariant(DoEdit(s, d, k, body, s.clock, opId))
  {
    var s1 := DoEdit(s, d, k, body, s.clock, opId);
    assert DeviceFresh(s, d);
    NowCovers(s, d, k);
    if s.devices[d].phase.Pulling? { LocalChangePage(s, s1, d); }
    DataKeeps(s, s1, d);
  }

  lemma RemoveKeeps(s: System, d: Id, k: Key, opId: Id)
    requires Invariant(s) && Enabled(s, Remove(d, k, s.clock, opId))
    ensures Invariant(DoRemove(s, d, k, s.clock, opId))
  {
    var s1 := DoRemove(s, d, k, s.clock, opId);
    assert DeviceFresh(s, d);
    if s.devices[d].phase.Pulling? { LocalChangePage(s, s1, d); }
    DataKeeps(s, s1, d);
  }

  // ----- pushing -----

  /** A request made of covered operations is admitted as it is. */
  lemma RequestFresh(s: System, d: Id, request: seq<Mutation>)
    requires d in s.devices && forall m :: m in request ==> MutationCovers(s, d, m)
    ensures forall m :: m in Admitted(request, s.clock, s.check) ==> MutationCovers(s, d, m) && s.check(m).None?
  {
    AdmittedMembers(request, s.clock, s.check);
  }

  lemma BatchFresh(s: System, d: Id, order: seq<Key>, size: Mutation -> nat)
    requires Invariant(s) && Enabled(s, StartPush(d, order, size))
    ensures var b := Build(ItemsOf(s.devices[d].queue, order), s.devices[d].rows, s.clock, size);
      (forall item :: item in b.items ==> item.createdAt <= s.clock) && (forall m :: m in b.mutations ==> MutationCovers(s, d, m))
  {
    var dev := s.devices[d];
    var items := ItemsOf(dev.queue, order);
    var b := Build(items, dev.rows, s.clock, size);
    assert DeviceFresh(s, d);
    BuildFacts(items, dev.rows, s.clock, size, EMPTY_BATCH);
    forall i | 0 <= i < |b.items| ensures b.items[i].createdAt <= s.clock && MutationCovers(s, d, b.mutations[i]) {
      var j :| 0 <= j < |items| && items[j] == b.items[i];
      assert order[j] in order;
      assert MutationFor(b.items[i], dev.rows) == Some(b.mutations[i]);
    }
  }

  lemma StartPushKeeps(s: System, d: Id, order: seq<Key>, size: Mutation -> nat)
    requires Invariant(s) && Enabled(s, StartPush(d, order, size))
    ensures Invariant(DoStartPush(s, d, order, size))
  {
    var s1 := DoStartPush(s, d, order, size);
    assert DeviceFresh(s, d);
    SameBound(s, s1, d);
    BatchFresh(s, d, order, size);
    var b := Build(ItemsOf(s.devices[d].queue, order), s.devices[d].rows, s.clock, size);
    RequestFresh(s, d, b.mutations);
    OneDevice(s, s1, d);
  }

  lemma ResendKeeps(s: System, d: Id)
    requires Invariant(s) && Enabled(s, Resend(d))
    ensures Invariant(Do(s, Resend(d)))
  {
    var s1 := Do(s, Resend(d));
    assert DeviceFresh(s, d);
    SameBound(s, s1, d);
    RequestFresh(s, d, s.devices[d].phase.request);
    OneDevice(s, s1, d);
  }

  // ----- acknowledgement -----

  /** A renamed row carries its conflict's time; every other row is as it was. */
  lemma {:induction false} ConflictTimes(rows: map<Key, Local>, conflicts: seq<Conflict>, k: Key)
    requires k in ApplyConflicts(rows, conflicts)
    ensures k in rows
    ensures var at := ApplyConflicts(rows, conflicts)[k].updatedAt;
      at == rows[k].updatedAt || exists c :: c in conflicts && Key(Topics, c.topicId) == k && c.updatedAt == at
  {
    if conflicts != [] {
      var n := |conflicts| - 1;
      ConflictTimes(rows, conflicts[..n], k);
      assert conflicts[n] in conflicts;
    }
  }

  predicate MadeBy(q: Queue, limit: Time) {
    forall k :: k in q ==> q[k].createdAt <= limit
  }

  lemma {:induction false} AcceptedMadeBy(q: Queue, items: seq<Item>, accepted: seq<Id>, limit: Time)
    requires MadeBy(q, limit)
    ensures MadeBy(RemoveAccepted(q, items, accepted), limit)
  {
    if accepted != [] {
      AcceptedMadeBy(q, items, accepted[..|accepted| - 1], limit);
    }
  }

  lemma {:induction false} ConflictsMadeBy(q: Queue, items: seq<Item>, conflicts: seq<Conflict>, limit: Time)
    requires MadeBy(q, limit)
    ensures MadeBy(RemoveConflicts(q, items, conflicts), limit)
  {
    if conflicts != [] {
      ConflictsMadeBy(q, items, conflicts[..|conflicts| - 1], limit);
    }
  }

  lemma {:induction false} RejectedMadeBy(q: Queue, items: seq<Item>, rejected: seq<Rejection>, wake: Id -> Time, limit: Time)
    requires MadeBy(q, limit) && forall item :: item in items ==> item.createdAt <= limit
    ensures MadeBy(HandleRejected(q, items, rejected, wake), limit)
  {
    if rejected != [] {
      var n := |rejected| - 1;
      RejectedMadeBy(q, items, rejected[..n], wake, limit);
      FindByOpFinds(items, rejected[n].opId);
    }
  }

  lemma AckKeeps(s: System, d: Id, wake: Id -> Time)
    requires Invariant(s) && Enabled(s, AckArrives(d, wake))
    ensures Invariant(DoAckArrives(s, d, wake))
  {
    HearingKeeps(s, d);
    AnswerKeeps(WithDevice(s, d, Hearing(s.devices[d])), d, wake);
  }

  lemma HearingKeeps(s: System, d: Id)
    requires Invariant(s) && d in s.devices && s.devices[d].phase.Pushing?
    ensures Invariant(WithDevice(s, d, Hearing(s.devices[d])))
  {
    var s1 := WithDevice(s, d, Hearing(s.devices[d]));
    assert DeviceFresh(s, d);
    SameBound(s, s1, d);
    forall c | c in s1.devices[d].phase.ack.conflicts ensures c in s.devices[d].phase.ack.conflicts {
    }
    OneDevice(s, s1, d);
  }

  /** An answer taken as it stands. */
  lemma AnswerKeeps(s: System, d: Id, wake: Id -> Time)
    requires Invariant(s) && d in s.devices && s.devices[d].phase.Pushing?
    ensures Invariant(TakeAnswer(s, d, wake))
  {
    var s1 := TakeAnswer(s, d, wake);
    var dev, p := s.devices[d], s.devices[d].phase;
    assert DeviceFresh(s, d);
    SameBound(s, s1, d);
    forall k | k in s1.devices[d].rows ensures Covers(s1, d, k, s1.devices[d].rows[k].updatedAt) {
      ConflictTimes(dev.rows, p.ack.conflicts, k);
    }
    var q1 := RemoveAccepted(dev.queue, p.items, p.ack.accepted);
    AcceptedMadeBy(dev.queue, p.items, p.ack.accepted, s.clock);
    ConflictsMadeBy(q1, p.items, p.ack.conflicts, s.clock);
    RejectedMadeBy(RemoveConflicts(q1, p.items, p.ack.conflicts), p.items, p.ack.rejected, wake, s.clock);
    OneDevice(s, s1, d);
  }

  // ----- pulling -----

  /** What a page read from this very server says. */
  ghost predicate ReadFrom(s: System, since: nat, page: Page) {
    && page.watermark <= Max(since, SeqOf(s.server, s.user))
    && (forall r :: r in page.records ==> Own(s, r.key) && s.server.rows[r.key] == r.row)
    && (forall k :: Own(s, k) && since < s.server.rows[k].serverSeq <= page.watermark ==>
          PageRow(k, s.server.rows[k]) in page.records)
    && (forall i, j :: 0 <= i < j < |page.records| ==> page.records[i].key != page.records[j].key)
  }

  lemma PageReadFrom(s: System, since: nat, limit: nat)
    requires SeqsSound(s.server, s.user)
    ensures ReadFrom(s, since, PullPage(s.server, s.user, since, limit))
  {
    PageIsComplete(s.server, s.user, since, limit);
    PageHolds(s, since, PullPage(s.server, s.user, since, limit));
  }

  lemma PageHolds(s: System, since: nat, page: Page)
    requires page.watermark <= Max(since, SeqOf(s.server, s.user))
    requires forall r :: r in page.records <==>
      (r.key in s.server.rows && s.server.rows[r.key] == r.row && r.row.owner == s.user && since < r.row.serverSeq <= page.watermark)
    requires forall i, j :: 0 <= i < j < |page.records| ==> page.records[i].key != page.records[j].key
    ensures ReadFrom(s, since, page)
  {
    forall k | Own(s, k) && since < s.server.rows[k].serverSeq <= page.watermark
      ensures PageRow(k, s.server.rows[k]) in page.records
    {
      var r := PageRow(k, s.server.rows[k]);
      assert r.key in s.server.rows && s.server.rows[r.key] == r.row;
    }
  }

  /** A page just read is fresh. */
  lemma NewPageFresh(s: System, s1: System, d: Id, since: nat, page: Page)
    requires ServerFresh(s) && d in s.devices && d in s1.devices && Bound(s, d) <= SeqOf(s.server, s.user)
    requires since <= s.devices[d].cursor && s1.devices[d].cursor == s.devices[d].cursor
    requires s1.user == s.user && s1.server == s.server && s1.clock == s.clock && s1.past.purged == s.past.purged
    requires ReadFrom(s, since, page)
    requires s1.devices[d].phase == Pulling(page, since, SeqOf(s.server, s.user), 0, None)
    ensures PageFresh(s1, d)
  {
    forall r | r in page.records ensures r.row.updatedAt <= s1.clock && (Live(r.row) ==> NotStale(s1, r.key, r.row.updatedAt)) {
      assert Own(s, r.key);
    }
  }

  lemma StartPullKeeps(s: System, d: Id, since: nat, limit: nat)
    requires Invariant(s) && Enabled(s, StartPull(d, since, limit))
    ensures Invariant(Do(s, StartPull(d, since, limit)))
  {
    var s1 := Do(s, StartPull(d, since, limit));
    var page := PullPage(s.server, s.user, since, limit);
    PageReadFrom(s, since, limit);
    assert DeviceFresh(s, d);
    NewPageFresh(s, s1, d, since, page);
    SameBound(s, s1, d);
    OneDevice(s, s1, d);
  }

  /** A live record of the page in hand may be stored: no tombstone the device is past is newer. */
  lemma LiveRecordCovers(s: System, d: Id, r: PageRow)
    requires Invariant(s) && d in s.devices && s.devices[d].phase.Pulling?
    requires r in s.devices[d].phase.page.records && Live(r.row)
    ensures Covers(s, d, r.key, r.row.updatedAt)
  {
    assert DeviceFresh(s, d) && PageFresh(s, d);
  }

  /** One record applied: what it may write is its own version, what it may delete is older, and the
      tombstone itself is obeyed wherever the view lets it win. */
  lemma RecordOnRows(a: Applying, r: PageRow, readable: bool)
    requires ApplyKnown(a, r, readable).Some? && ViewFresh(a.rows, a.known, r)
    ensures var rows := ApplyKnown(a, r, readable).value.rows;
      && (forall k :: k in rows ==> (k in a.rows && rows[k] == a.rows[k]) || (k == r.key && Live(r.row) && rows[k].updatedAt == r.row.updatedAt))
      && Obeyed(rows, r)
  {
  }

  lemma OtherRecords(a: Applying, r: PageRow, readable: bool, q: PageRow)
    requires ApplyKnown(a, r, readable).Some? && q.key != r.key
    ensures var b := ApplyKnown(a, r, readable).value;
      (Obeyed(a.rows, q) ==> Obeyed(b.rows, q)) && (ViewFresh(a.rows, a.known, q) ==> ViewFresh(b.rows, b.known, q))
  {
  }

  lemma AppliedRowCovers(s: System, d: Id, readable: bool, k: Key)
    requires Invariant(s) && Enabled(s, ApplyNext(d, readable)) && k in AppliedNext(s.devices[d], readable).value.rows
    ensures Covers(s, d, k, AppliedNext(s.devices[d], readable).value.rows[k].updatedAt)
  {
    var dev, p := s.devices[d], s.devices[d].phase;
    var r := p.page.records[p.next];
    assert DeviceFresh(s, d) && PageFresh(s, d) && r in p.page.records;
    RecordOnRows(Applying(dev.rows, p.known.value, {}), r, readable);
    if Live(r.row) { LiveRecordCovers(s, d, r); }
  }

  /** The page in hand after one more record. */
  lemma RecordObeyed(a: Applying, page: Page, next: nat, readable: bool)
    requires next < |page.records| && PageObeyed(a.rows, page, next, Some(a.known))
    requires ApplyKnown(a, page.records[next], readable).Some?
    requires forall i, j :: 0 <= i < j < |page.records| ==> page.records[i].key != page.records[j].key
    ensures var b := ApplyKnown(a, page.records[next], readable).value; PageObeyed(b.rows, page, next + 1, Some(b.known))
  {
    var b := ApplyKnown(a, page.records[next], readable).value;
    RecordOnRows(a, page.records[next], readable);
    forall i | 0 <= i < |page.records| && i != next
      ensures i < next ==> Obeyed(b.rows, page.records[i])
      ensures i > next ==> ViewFresh(b.rows, b.known, page.records[i])
    {
      OtherRecords(a, page.records[next], readable, page.records[i]);
    }
  }

  lemma ApplyNextKeeps(s: System, d: Id, readable: bool)
    requires Invariant(s) && Enabled(s, ApplyNext(d, readable))
    ensures Invariant(DoApplyNext(s, d, readable))
  {
    var s1 := DoApplyNext(s, d, readable);
    assert DeviceFresh(s, d);
    SameBound(s, s1, d);
    forall k | k in s1.devices[d].rows ensures Covers(s1, d, k, s1.devices[d].rows[k].updatedAt) {
      AppliedRowCovers(s, d, readable, k);
    }
    var p := s.devices[d].phase;
    SamePage(s, s1, d, p.page, p.since, p.upTo);
    RecordObeyed(Applying(s.devices[d].rows, p.known.value, {}), p.page, p.next, readable);
    OneDevice(s, s1, d);
  }

  /** A view just taken is accurate. */
  lemma NewViewFresh(rows: map<Key, Local>, records: seq<PageRow>)
    ensures forall i :: 0 <= i < |records| ==> ViewFresh(rows, Snapshot(rows, records), records[i])
  {
  }

  lemma BeginDeltaKeeps(s: System, d: Id)
    requires Invariant(s) && Enabled(s, BeginDelta(d))
    ensures Invariant(Do(s, BeginDelta(d)))
  {
    var s1 := Do(s, BeginDelta(d));
    var p := s.devices[d].phase;
    assert DeviceFresh(s, d);
    SameBound(s, s1, d);
    SamePage(s, s1, d, p.page, p.since, p.upTo);
    NewViewFresh(s.devices[d].rows, p.page.records);
    OneDevice(s, s1, d);
  }

  /** The cursor moves over the page: every tombstone it passes was in the page and is obeyed. */
  lemma FinishPullKeeps(s: System, d: Id)
    requires Invariant(s) && Enabled(s, FinishPull(d))
    ensures Invariant(Do(s, FinishPull(d)))
  {
    var s1 := Do(s, FinishPull(d));
    assert DeviceFresh(s, d);
    PassedRowsCover(s, s1, d);
    OneDevice(s, s1, d);
  }

  lemma PassedRowsCover(s: System, s1: System, d: Id)
    requires Invariant(s) && d in s.devices && IsApplying(s.devices[d])
    requires s.devices[d].phase.next == |s.devices[d].phase.page.records|
    requires d in s1.devices && s1.user == s.user && s1.server == s.server && s1.clock == s.clock && s1.past.purged == s.past.purged
    requires s1.devices[d] == s.devices[d].(cursor := AdvanceCursor(s.devices[d].cursor, s.devices[d].phase.page.watermark), phase := Resting)
    ensures forall k :: k in s1.devices[d].rows ==> Covers(s1, d, k, s1.devices[d].rows[k].updatedAt)
    ensures Bound(s1, d) <= SeqOf(s1.server, s1.user)
  {
    var dev, p := s.devices[d], s.devices[d].phase;
    assert DeviceFresh(s, d) && PageFresh(s, d);
    assert LastPulled(s1, d) == LastPulled(s, d);
    forall k | k in dev.rows ensures Covers(s1, d, k, dev.rows[k].updatedAt) {
      assert Covers(s, d, k, dev.rows[k].updatedAt);
      if Own(s, k) && !Live(s.server.rows[k]) && Bound(s, d) < s.server.rows[k].serverSeq <= Bound(s1, d) {
        var i :| 0 <= i < |p.page.records| && p.page.records[i] == PageRow(k, s.server.rows[k]);
        assert Obeyed(dev.rows, p.page.records[i]);
      }
    }
  }

  // ----- devices and time -----

  lemma QuietKeepsServer(s: System, s1: System)
    requires Invariant(s) && s1.clock >= s.clock && s1.user == s.user && s1.past.purged == s.past.purged
    requires s1.server.rows == s.server.rows && s1.server.seqs == s.server.seqs
    requires forall d :: LastPulled(s1, d) <= LastPulled(s, d) || (d in s.devices && LastPulled(s1, d) <= s.devices[d].cursor)
    ensures ServerFresh(s1)
  {
    forall d ensures LastPulled(s1, d) <= SeqOf(s1.server, s1.user) {
      assert LastPulled(s, d) <= SeqOf(s.server, s.user);
      if d in s.devices { assert DeviceFresh(s, d); }
    }
    forall k | Own(s1, k) ensures s1.server.rows[k].updatedAt <= s1.clock && NotStale(s1, k, s1.server.rows[k].updatedAt) {
      assert Own(s, k);
    }
  }

  /** Devices that stay keep their data and fall back at most; a device that appears is empty. */
  lemma QuietKeeps(s: System, s1: System)
    requires Invariant(s) && s1.clock >= s.clock
    requires s1.user == s.user && s1.check == s.check && s1.past.purged == s.past.purged && s1.past.sent == s.past.sent
    requires s1.server.rows == s.server.rows && s1.server.seqs == s.server.seqs
    requires forall d :: LastPulled(s1, d) <= LastPulled(s, d) || (d in s.devices && LastPulled(s1, d) <= s.devices[d].cursor)
    requires forall d :: d in s1.devices ==> (d in s.devices && s1.devices[d] == s.devices[d]) || s1.devices[d] == EMPTY_DEVICE
    ensures Invariant(s1)
  {
    QuietKeepsServer(s, s1);
    forall d | d in s1.devices ensures DeviceFresh(s1, d) {
      if s1.devices[d] != EMPTY_DEVICE {
        assert DeviceFresh(s, d);
        DeviceKept(s, s1, d);
      }
    }
  }

  lemma ReportKeeps(s: System, s1: System, id: Id, cursor: Option<nat>)
    requires Invariant(s) && ReportDevice(s.server.devices, s.user, id, cursor, s.clock).Registered?
    requires cursor.Some? ==> id in s.devices && cursor.value <= s.devices[id].cursor
    requires s1.past.purged == s.past.purged && s1.past.sent == s.past.sent
    requires s1 == s.(devices := s1.devices, past := s1.past,
      server := s.server.(devices := ReportDevice(s.server.devices, s.user, id, cursor, s.clock).devices))
    requires forall d :: d in s1.devices ==> (d in s.devices && s1.devices[d] == s.devices[d]) || s1.devices[d] == EMPTY_DEVICE
    ensures Invariant(s1)
  {
    forall d ensures LastPulled(s1, d) <= LastPulled(s, d) || (d in s.devices && LastPulled(s1, d) <= s.devices[d].cursor) {
    }
    QuietKeeps(s, s1);
  }

  // ----- purge -----

  /** A tombstone that every device of the run has passed was removed and is remembered. */
  ghost predicate Taken(s: System, s1: System, k: Key) {
    && Own(s, k) && !Live(s.server.rows[k]) && k !in s1.server.rows
    && k in s1.past.purged
    && s1.past.purged[k] == (if k in s.past.purged then Max(s.past.purged[k], s.server.rows[k].updatedAt) else s.server.rows[k].updatedAt)
    && (forall d :: d in s.devices ==> s.server.rows[k].serverSeq <= LastPulled(s, d))
  }

  /** A purge as the invariant sees it. */
  ghost predicate Purged(s: System, s1: System) {
    && s1.user == s.user && s1.check == s.check && s1.clock == s.clock && s1.devices == s.devices
    && s1.past.sent == s.past.sent && s1.server.seqs == s.server.seqs
    && (forall k :: k in s1.server.rows ==> k in s.server.rows && s1.server.rows[k] == s.server.rows[k])
    && (forall k :: k in s1.past.purged ==> Taken(s, s1, k) || (k in s.past.purged && s1.past.purged[k] == s.past.purged[k]))
    && (forall d :: LastPulled(s1, d) <= LastPulled(s, d))
    && (forall d :: d in s.devices ==> LastPulled(s1, d) == LastPulled(s, d))
  }

  lemma PurgeTakes(s: System, k: Key)
    requires Strict(s, PurgeTombstones) && k in PurgedNow(s.server, s.user, s.clock)
    ensures Taken(s, Do(s, PurgeTombstones), k)
  {
    assert Purgeable(s.server, s.user, s.clock, k);
    forall d | d in s.devices ensures s.server.rows[k].serverSeq <= LastPulled(s, d) {
      assert d in Active(s.server.devices, s.user, s.clock);
    }
  }

  lemma PurgeIsPurged(s: System)
    requires Strict(s, PurgeTombstones)
    ensures Purged(s, Do(s, PurgeTombstones))
  {
    var s1 := Do(s, PurgeTombstones);
    forall k | k in s1.past.purged ensures Taken(s, s1, k) || (k in s.past.purged && s1.past.purged[k] == s.past.purged[k]) {
      if k in PurgedNow(s.server, s.user, s.clock) { PurgeTakes(s, k); }
    }
    forall d | d in s.devices ensures LastPulled(s1, d) == LastPulled(s, d) {
      assert d in Active(s.server.devices, s.user, s.clock);
    }
  }

  lemma PurgeKeepsCovers(s: System, s1: System, d: Id, k: Key, at: Time)
    requires Purged(s, s1) && d in s.devices && Covers(s, d, k, at)
    ensures Covers(s1, d, k, at)
  {
  }

  lemma PurgeKeepsServer(s: System, s1: System)
    requires ServerFresh(s) && Purged(s, s1)
    ensures ServerFresh(s1)
  {
    forall k | Own(s1, k) ensures s1.server.rows[k].updatedAt <= s1.clock && NotStale(s1, k, s1.server.rows[k].updatedAt) {
      assert Own(s, k);
    }
  }

  lemma PurgeKeepsRecord(s: System, s1: System, d: Id, r: PageRow)
    requires Invariant(s) && Purged(s, s1) && d in s.devices && s.devices[d].phase.Pulling?
    requires r in s.devices[d].phase.page.records && Live(r.row)
    ensures NotStale(s1, r.key, r.row.updatedAt)
  {
    LiveRecordCovers(s, d, r);
    PurgeKeepsCovers(s, s1, d, r.key, r.row.updatedAt);
  }

  lemma PurgeKeepsPage(s: System, s1: System, d: Id)
    requires Invariant(s) && Purged(s, s1) && d in s.devices && s.devices[d].phase.Pulling?
    ensures PageFresh(s1, d)
  {
    assert DeviceFresh(s, d) && PageFresh(s, d);
    assert Bound(s1, d) == Bound(s, d);
    forall r | r in s.devices[d].phase.page.records && Live(r.row) ensures NotStale(s1, r.key, r.row.updatedAt) {
      PurgeKeepsRecord(s, s1, d, r);
    }
  }

  lemma PurgeKeepsPush(s: System, s1: System, d: Id)
    requires Invariant(s) && Purged(s, s1) && d in s.devices && s.devices[d].phase.Pushing?
    ensures PhaseFresh(s1, d)
  {
    var p := s.devices[d].phase;
    assert DeviceFresh(s, d);
    forall m | m in p.request || m in p.admitted ensures MutationCovers(s1, d, m) {
      assert MutationCovers(s, d, m);
      if m.operation.Upsert? { PurgeKeepsCovers(s, s1, d, m.key, m.payload.value.updatedAt); }
    }
    forall c | c in p.ack.conflicts ensures Covers(s1, d, Key(Topics, c.topicId), c.updatedAt) {
      PurgeKeepsCovers(s, s1, d, Key(Topics, c.topicId), c.updatedAt);
    }
  }

  lemma PurgeKeepsDevice(s: System, s1: System, d: Id)
    requires Invariant(s) && Purged(s, s1) && d in s.devices
    ensures DeviceFresh(s1, d)
  {
    assert DeviceFresh(s, d);
    assert Bound(s1, d) == Bound(s, d);
    forall k | k in s1.devices[d].rows ensures Covers(s1, d, k, s1.devices[d].rows[k].updatedAt) {
      PurgeKeepsCovers(s, s1, d, k, s.devices[d].rows[k].updatedAt);
    }
    if s.devices[d].phase.Pushing? {
      PurgeKeepsPush(s, s1, d);
    } else if s.devices[d].phase.Pulling? {
      PurgeKeepsPage(s, s1, d);
    }
  }

  /** The purge takes only tombstones that every device has passed, so nothing it knows of is stale. */
  lemma PurgeKeeps(s: System)
    requires Invariant(s) && Strict(s, PurgeTombstones)
    ensures Invariant(Do(s, PurgeTombstones))
  {
    PurgeIsPurged(s);
    PurgeKeepsServer(s, Do(s, PurgeTombstones));
    forall d | d in s.devices ensures DeviceFresh(Do(s, PurgeTombstones), d) {
      PurgeKeepsDevice(s, Do(s, PurgeTombstones), d);
    }
  }

  // ----- runs -----

  lemma RestKeeps(s: System, d: Id)
    requires Invariant(s) && d in s.devices
    ensures Invariant(WithDevice(s, d, s.devices[d].(phase := Resting)))
  {
    var s1 := WithDevice(s, d, s.devices[d].(phase := Resting));
    assert DeviceFresh(s, d);
    SameBound(s, s1, d);
    OneDevice(s, s1, d);
  }

  lemma JoinKeeps(s: System, d: Id)
    requires Invariant(s) && Enabled(s, Join(d))
    ensures Invariant(Do(s, Join(d)))
  {
    ReportKeeps(s, Do(s, Join(d)), d, None);
  }

  lemma ReportInKeeps(s: System, d: Id)
    requires Invariant(s) && Enabled(s, ReportIn(d))
    ensures Invariant(Do(s, ReportIn(d)))
  {
    assert DeviceFresh(s, d);
    ReportKeeps(s, Do(s, ReportIn(d)), d, SentCursor(s.devices[d].phase));
  }

  lemma QuietStepKeeps(s: System, step: Step)
    requires Invariant(s) && Enabled(s, step) && (step.Tick? || step.Retire? || step.ForgetOps?)
    ensures Invariant(Do(s, step))
  {
    QuietKeeps(s, Do(s, step));
  }

  predicate IsPushStep(step: Step) {
    step.Edit? || step.Remove? || step.StartPush? || step.ServeNext? || step.Resend? || step.AckArrives? || step.PushFails?
    || step.Straggler?
  }

  lemma PushStepKeeps(s: System, step: Step)
    requires Invariant(s) && Enabled(s, step) && Strict(s, step) && IsPushStep(step)
    ensures Invariant(Do(s, step))
  {
    match step
    case Edit(d, k, body, _, opId) => EditKeeps(s, d, k, body, opId);
    case Remove(d, k, _, opId) => RemoveKeeps(s, d, k, opId);
    case StartPush(d, order, size) => StartPushKeeps(s, d, order, size);
    case ServeNext(d, hard, fault) => ServeNextKeeps(s, d, hard, fault);
    case Straggler(d, m, hard, fault) => StragglerKeeps(s, d, m, hard, fault);
    case Resend(d) => ResendKeeps(s, d);
    case AckArrives(d, wake) => AckKeeps(s, d, wake);
    case PushFails(d) => RestKeeps(s, d);
  }

  lemma OtherStepKeeps(s: System, step: Step)
    requires Invariant(s) && Enabled(s, step) && Strict(s, step) && !IsPushStep(step)
    ensures Invariant(Do(s, step))
  {
    match step
    case StartPull(d, since, limit) => StartPullKeeps(s, d, since, limit);
    case BeginDelta(d) => BeginDeltaKeeps(s, d);
    case ApplyNext(d, readable) => ApplyNextKeeps(s, d, readable);
    case FinishPull(d) => FinishPullKeeps(s, d);
    case PullFails(d) => RestKeeps(s, d);
    case Join(d) => JoinKeeps(s, d);
    case ReportIn(d) => ReportInKeeps(s, d);
    case PurgeTombstones => PurgeKeeps(s);
    case Tick(_) => QuietStepKeeps(s, step);
    case Retire(_) => QuietStepKeeps(s, step);
    case ForgetOps(_) => QuietStepKeeps(s, step);
  }

  /** Every step, in every state that keeps the invariant, keeps it. */
  lemma StepKeeps(s: System, step: Step)
    requires Invariant(s) && Enabled(s, step) && Strict(s, step)
    ensures Invariant(Do(s, step))
  {
    if IsPushStep(step) { PushStepKeeps(s, step); } else { OtherStepKeeps(s, step); }
  }

  lemma {:induction false} RunKeeps(s: System, steps: seq<Step>)
    requires Invariant(s) && Runs(s, steps) && StrictRun(s, steps)
    ensures Invariant(Run(s, steps))
    decreases |steps|
  {
    if steps != [] {
      StepKeeps(s, steps[0]);
      RunKeeps(Do(s, steps[0]), steps[1..]);
    }
  }

  lemma StartIsFresh(s: System)
    requires Start(s)
    ensures Invariant(s)
  {
  }

  /** The operation a device would push for the record, if any, is at least as new as `at`. */
  ghost predicate CanOnlyPush(dev: Device, k: Key, at: Time) {
    && (k in dev.rows ==> dev.rows[k].updatedAt >= at)
    && (dev.phase.Pushing? ==>
          forall m :: (m in dev.phase.request || m in dev.phase.admitted) && m.operation.Upsert? && m.key == k && m.payload.Some? ==>
            m.payload.value.updatedAt >= at)
    && (dev.phase.Pulling? ==> forall r :: r in dev.phase.page.records && r.key == k && Live(r.row) ==> r.row.updatedAt >= at)
  }

  /** In every run from a new account: once a tombstone of a record is purged, no device holds, is
      pushing, or is being handed a version older than it, and the server stores none. */
  lemma NoStaleResurrection(s: System, steps: seq<Step>, k: Key)
    requires Start(s) && Runs(s, steps) && StrictRun(s, steps)
    requires k in Run(s, steps).past.purged
    ensures var s1 := Run(s, steps); var at := s1.past.purged[k];
      && (forall d :: d in s1.devices ==> CanOnlyPush(s1.devices[d], k, at))
      && (k in s1.server.rows && s1.server.rows[k].owner == s1.user ==> s1.server.rows[k].updatedAt >= at)
  {
    StartIsFresh(s);
    RunKeeps(s, steps);
    var s1 := Run(s, steps);
    var at := s1.past.purged[k];
    assert Own(s1, k) ==> NotStale(s1, k, s1.server.rows[k].updatedAt);
    forall d | d in s1.devices ensures CanOnlyPush(s1.devices[d], k, at) {
      assert DeviceFresh(s1, d);
    }
  }

  /** The server shows the record in a version older than a purged tombstone of it. */
  predicate ShowsStale(s: System, k: Key) {
    Own(s, k) && Live(s.server.rows[k]) && !NotStale(s, k, s.server.rows[k].updatedAt)
  }

  /** The server carries the operation out: nothing fails around it and its transaction commits. */
  ghost predicate GoesThrough(s: System, d: Id, m: Mutation, hard: bool, fault: Fault) {
    && !fault.Unavailable? && !(fault.MediaFault? && m.operation.Upsert? && m.key.table.Cards?)
    && ApplyMutation(s.server, s.user, d, m, s.clock, hard).Commit?
  }

  lemma LateStepIff(s: System, d: Id, m: Mutation, hard: bool, fault: Fault)
    requires Invariant(s) && Enabled(s, Straggler(d, m, hard, fault))
    ensures var s1 := Do(s, Straggler(d, m, hard, fault));
      (exists k :: ShowsStale(s1, k)) <==> (StaleLate(s, m) && GoesThrough(s, d, m, hard, fault))
  {
    assert SentFresh((d, m).1, s.clock);
    ClampExact(m, s.clock);
    var s1 := Do(s, Straggler(d, m, hard, fault));
    if StaleLate(s, m) {
      StaleLateLands(s, d, m, hard, fault);
    } else {
      StragglerKeeps(s, d, m, hard, fault);
    }
  }

  /** After any strict run, exactly the late requests that the hypothesis excludes do harm: a late request
      leaves some record shown in a version older than its purged tombstone if and only if it is stale,
      that is, unlogged, older than the tombstone and of a record not stored, and it goes through. */
  lemma LateRequestIff(start: System, steps: seq<Step>, d: Id, m: Mutation, hard: bool, fault: Fault)
    requires Start(start) && Runs(start, steps) && StrictRun(start, steps)
    requires Enabled(Run(start, steps), Straggler(d, m, hard, fault))
    ensures var s := Run(start, steps);
      (exists k :: ShowsStale(Do(s, Straggler(d, m, hard, fault)), k))
      <==> (StaleLate(s, m) && GoesThrough(s, d, m, hard, fault))
  {
    StartIsFresh(start);
    RunKeeps(start, steps);
    LateStepIff(Run(start, steps), d, m, hard, fault);
  }

  /** A stale request that goes through stores its record live; one that does not changes nothing. */
  lemma StaleLateLands(s: System, d: Id, m: Mutation, hard: bool, fault: Fault)
    requires ServerFresh(s) && StaleLate(s, m) && SentFresh(m, s.clock) && Addressed(m)
    ensures var s1 := Served(s, ApplyOp(s.server, s.user, d, m, hard, Env(s.clock, fault)).0, m);
      if GoesThrough(s, d, m, hard, fault) then ShowsStale(s1, m.key) else s1.server == s.server
  {
    if ApplyMutation(s.server, s.user, d, m, s.clock, hard).Commit? {
      NewRecordStored(s.server, s.user, d, m, s.clock, hard);
    }
  }

  /** An upsert of a record that is not stored stores it as pushed. */
  lemma NewRecordStored(s: Server, user: Id, device: Id, m: Mutation, now: Time, hard: bool)
    requires m.operation.Upsert? && m.key !in s.rows && SentFresh(m, now)
    requires ApplyMutation(s, user, device, m, now, hard).Commit?
    ensures var rows := ApplyMutation(s, user, device, m, now, hard).server.rows;
      m.key in rows && rows[m.key].owner == user && Live(rows[m.key]) && rows[m.key].updatedAt == m.payload.value.updatedAt
  {
  }
}
