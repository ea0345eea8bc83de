// A device in sync with the server up to its cursor: what keeps it so, and what two such devices agree on.

module InSync {
  import opened SyncTypes
  import opened ServerApply
  import opened PushBatch
  import opened Paging
  import opened Outbox
  import opened ClientPull
  import opened PullDelta
  import opened SyncClient

  /** The device has a record as the server does, or newer: a live one with the same contents at the same
      time, up to the longer title a topic may have been given locally; a deleted one not older than the
      tombstone. */
  predicate Matches(row: Row, rows: map<Key, Local>, k: Key) {
    if Live(row)
    then k in rows && (rows[k].updatedAt > row.updatedAt
                       || (rows[k].updatedAt == row.updatedAt && SameContent(rows[k].body, row.body, k.id)))
    else k in rows ==> rows[k].updatedAt >= row.updatedAt
  }

  predicate UpTo(s: Server, user: Id, cursor: nat, k: Key) {
    k in s.rows && s.rows[k].owner == user && s.rows[k].serverSeq <= cursor
  }

  /** Every row at or below the cursor is matched, live ones unless excused. */
  ghost predicate Synced(s: Server, user: Id, cursor: nat, rows: map<Key, Local>, excused: set<Key>) {
    forall k :: UpTo(s, user, cursor, k) ==> Matches(s.rows[k], rows, k) || (Live(s.rows[k]) && k in excused)
  }

  /** Two versions of one record at one time are one version. */
  ghost predicate OneVersion(s: Server, user: Id, from: nat, start: map<Key, Local>) {
    forall k :: (k in start && k in s.rows && s.rows[k].owner == user && s.rows[k].serverSeq > from
                 && Live(s.rows[k]) && start[k].updatedAt == s.rows[k].updatedAt) ==> SameContent(start[k].body, s.rows[k].body, k.id)
  }

  /** What a pull leaves unmatched: records it could not read, records that fell with their topic, and
      those unmatched before that it did not bring again. */
  ghost function ExcusedAfter(s: Server, from: nat, start: map<Key, Local>, received: seq<PageRow>, poison: set<Key>,
                              excused: set<Key>): set<Key> {
    set k | k in s.rows && ((k in excused && s.rows[k].serverSeq <= from) || k in poison || Fell(start, received, k))
  }

  // ----- a pull -----

  /** A record at or below the old cursor is not among those received. */
  lemma NotReceived(s0: Server, user: Id, from: nat, received: seq<PageRow>, k: Key)
    requires FromServer(s0, user, from, received) && UpTo(s0, user, from, k)
    ensures forall r :: r in received ==> r.key != k
  {
  }

  /** So its local row is as it was, unless it fell with its topic. */
  lemma OldRowStays(s0: Server, user: Id, from: nat, start: map<Key, Local>, received: seq<PageRow>, a: Applying, k: Key)
    requires FromServer(s0, user, from, received) && UpTo(s0, user, from, k) && Progressing(start, received, a)
    ensures k in a.rows ==> k in start && a.rows[k] == start[k]
    ensures k in start && k !in a.rows ==> Fell(start, received, k)
  {
    NotReceived(s0, user, from, received, k);
    if k in a.rows { assert FromStartOr(start, received, k, a.rows[k]); }
    if k in start { assert Kept(start, received, a.rows, k); }
  }

  /** Each record is received in one version. */
  lemma OnlyVersion(s0: Server, user: Id, from: nat, received: seq<PageRow>, r: PageRow, q: PageRow)
    requires FromServer(s0, user, from, received) && r in received && q in received && q.key == r.key
    ensures q == r
  {
  }

  /** A received record is matched, unless it could not be read or fell with its topic. */
  lemma ReceivedMatches(s0: Server, user: Id, from: nat, start: map<Key, Local>, received: seq<PageRow>, a: Applying, r: PageRow)
    requires FromServer(s0, user, from, received) && Progressing(start, received, a) && OneVersion(s0, user, from, start)
    requires r in received
    ensures Matches(r.row, a.rows, r.key) || (Live(r.row) && (r.key in a.poisoned || Fell(start, received, r.key)))
  {
    assert Settled(start, received, a.rows, a.poisoned, r);
    if Live(r.row) && r.key in a.rows {
      assert FromStartOr(start, received, r.key, a.rows[r.key]);
      if !(r.key in start && a.rows[r.key] == start[r.key]) {
        var q :| q in received && q.key == r.key && Live(q.row) && a.rows[r.key].updatedAt == q.row.updatedAt
                 && SameContent(a.rows[r.key].body, q.row.body, r.key.id);
        OnlyVersion(s0, user, from, received, r, q);
      }
    }
  }

  /** A pull from any cursor, however far it comes, carries the match on to where its cursor ends: what was
      matched at or below the old cursor still is, and everything the server still has above it, up to the
      new one, is. */
  lemma PullKeepsSync(s0: Server, s: Server, user: Id, from: nat, cursor: nat, start: map<Key, Local>, rows: map<Key, Local>,
                      readable: PageRow -> bool, received: seq<PageRow>, poison: set<Key>, excused: set<Key>)
    requires PullEnd(s0, s, user, from, cursor, start, rows, readable, received, poison)
    requires Synced(s0, user, from, start, excused) && OneVersion(s0, user, from, start)
    ensures Synced(s, user, cursor, rows, ExcusedAfter(s, from, start, received, poison, excused))
  {
    var a := Applying(rows, map[], poison);
    forall k | UpTo(s, user, cursor, k)
      ensures Matches(s.rows[k], rows, k) || (Live(s.rows[k]) && k in ExcusedAfter(s, from, start, received, poison, excused))
    {
      if s.rows[k].serverSeq <= from {
        assert UpTo(s0, user, from, k);
        OldRowStays(s0, user, from, start, received, a, k);
      } else {
        var r := PageRow(k, s.rows[k]);
        assert IsAbove(s, user, from, cursor, r);
        ReceivedMatches(s0, user, from, start, received, a, r);
      }
    }
  }

  // ----- everything else -----

  /** A new device is in sync: nothing lies at or below cursor zero. */
  lemma NewDeviceSynced(s: Server, user: Id, rows: map<Key, Local>)
    requires forall k :: k in s.rows && s.rows[k].owner == user ==> s.rows[k].serverSeq > 0
    ensures Synced(s, user, 0, rows, {})
  {
  }

  /** Whatever is written on the server lands above every cursor it has answered, so it disturbs no match. */
  lemma WritesKeepSync(s: Server, user: Id, s1: Server, cursor: nat, rows: map<Key, Local>, excused: set<Key>)
    requires Synced(s, user, cursor, rows, excused) && Advances(s, user, s1) && cursor <= SeqOf(s, user)
    ensures Synced(s1, user, cursor, rows, excused)
  {
    forall k | UpTo(s1, user, cursor, k) ensures UpTo(s, user, cursor, k) && s1.rows[k] == s.rows[k] {
    }
  }

  /** A purge takes rows away and changes none. */
  lemma PurgeKeepsSync(s0: Server, s: Server, user: Id, upTo: nat, cursor: nat, rows: map<Key, Local>, excused: set<Key>)
    requires Synced(s0, user, cursor, rows, excused) && PurgedTo(s0, s, user, upTo)
    ensures Synced(s, user, cursor, rows, excused)
  {
    forall k | UpTo(s, user, cursor, k) ensures UpTo(s0, user, cursor, k) && s.rows[k] == s0.rows[k] {
    }
  }

  /** A local edit keeps the match exactly when the server has no later version at or below the cursor (and
      at the very time none but this one), or a live one that is excused. */
  lemma EditKeepsSyncIff(s: Server, user: Id, cursor: nat, rows: map<Key, Local>, excused: set<Key>, k: Key, local: Local)
    requires Synced(s, user, cursor, rows, excused)
    ensures Synced(s, user, cursor, rows[k := local], excused)
      <==> (UpTo(s, user, cursor, k) ==> Matches(s.rows[k], map[k := local], k) || (Live(s.rows[k]) && k in excused))
  {
    var rows1 := rows[k := local];
    forall j | j != k && UpTo(s, user, cursor, j)
      ensures Matches(s.rows[j], rows1, j) == Matches(s.rows[j], rows, j)
    {
    }
    assert UpTo(s, user, cursor, k) ==> Matches(s.rows[k], rows1, k) == Matches(s.rows[k], map[k := local], k);
  }

  /** A local delete leaves its record unmatched until the server's answer to it is pulled. */
  lemma RemoveKeepsSync(s: Server, user: Id, cursor: nat, rows: map<Key, Local>, excused: set<Key>, k: Key)
    requires Synced(s, user, cursor, rows, excused)
    ensures Synced(s, user, cursor, rows - {k}, excused + {k})
  {
    forall j | j != k && UpTo(s, user, cursor, j) ensures Matches(s.rows[j], rows - {k}, j) == Matches(s.rows[j], rows, j) {
    }
  }

  // ----- a device's life -----

  /** The server, and one device's cursor, rows, and records it is excused from. */
  datatype Moment = Moment(server: Server, cursor: nat, rows: map<Key, Local>, excused: set<Key>)

  /** What happens: a pull by the device; an operation served, whoever sent it; a purge; a local edit or delete. */
  datatype Move =
    | Pulled(readable: PageRow -> bool, received: seq<PageRow>, poison: set<Key>)
    | ServedOp(device: Id, m: Mutation, hard: bool, env: Env)
    | Purged(upTo: nat)
    | Edited(k: Key, local: Local)
    | Removed(k: Key)

  ghost predicate Next(user: Id, a: Moment, move: Move, b: Moment) {
    match move
    case Pulled(readable, received, poison) =>
      && PullEnd(a.server, b.server, user, a.cursor, b.cursor, a.rows, b.rows, readable, received, poison)
      && OneVersion(a.server, user, a.cursor, a.rows)
      && b.excused == ExcusedAfter(b.server, a.cursor, a.rows, received, poison, a.excused)
    case ServedOp(device, m, hard, env) => b == a.(server := ApplyOp(a.server, user, device, m, hard, env).0)
    case Purged(upTo) => PurgedTo(a.server, b.server, user, upTo) && b == a.(server := b.server)
    case Edited(k, local) =>
      && b == a.(rows := a.rows[k := local])
      && (UpTo(a.server, user, a.cursor, k) ==> Matches(a.server.rows[k], map[k := local], k) || (Live(a.server.rows[k]) && k in a.excused))
    case Removed(k) => b == a.(rows := a.rows - {k}, excused := a.excused + {k})
  }

  /** A device that starts at cursor zero, whatever it holds. */
  ghost predicate Begins(user: Id, a: Moment) {
    a.cursor == 0 && SeqsSound(a.server, user)
    && forall k :: k in a.server.rows && a.server.rows[k].owner == user ==> a.server.rows[k].serverSeq > 0
  }

  ghost predicate Life(user: Id, life: seq<Moment>, moves: seq<Move>) {
    |life| == |moves| + 1 && Begins(user, life[0]) && forall i :: 0 <= i < |moves| ==> Next(user, life[i], moves[i], life[i + 1])
  }

  /** In sync, at a cursor the server has reached. */
  ghost predicate InSyncAt(user: Id, a: Moment) {
    Synced(a.server, user, a.cursor, a.rows, a.excused) && SeqsSound(a.server, user) && a.cursor <= SeqOf(a.server, user)
  }

  lemma ServedKeepsSync(user: Id, a: Moment, device: Id, m: Mutation, hard: bool, env: Env)
    requires InSyncAt(user, a)
    ensures InSyncAt(user, a.(server := ApplyOp(a.server, user, device, m, hard, env).0))
  {
    if ApplyMutation(a.server, user, device, m, env.now, hard).Commit? {
      ApplyAdvances(a.server, user, device, m, env.now, hard);
      WritesKeepSync(a.server, user, ApplyMutation(a.server, user, device, m, env.now, hard).server, a.cursor, a.rows, a.excused);
    }
  }

  lemma NextKeepsSync(user: Id, a: Moment, move: Move, b: Moment)
    requires InSyncAt(user, a) && Next(user, a, move, b)
    ensures InSyncAt(user, b)
  {
    match move
    case Pulled(readable, received, poison) =>
      PullKeepsSync(a.server, b.server, user, a.cursor, b.cursor, a.rows, b.rows, readable, received, poison, a.excused);
    case ServedOp(device, m, hard, env) => ServedKeepsSync(user, a, device, m, hard, env);
    case Purged(upTo) => PurgeKeepsSync(a.server, b.server, user, upTo, a.cursor, a.rows, a.excused);
    case Edited(k, local) => EditKeepsSyncIff(a.server, user, a.cursor, a.rows, a.excused, k, local);
    case Removed(k) => RemoveKeepsSync(a.server, user, a.cursor, a.rows, a.excused, k);
  }

  /** However often a device pulls, and whatever is served, purged, edited and deleted in between: it stays in
      sync up to its cursor. */
  lemma {:induction false} SyncedForLife(user: Id, life: seq<Moment>, moves: seq<Move>, n: nat)
    requires Life(user, life, moves) && n <= |moves|
    ensures InSyncAt(user, life[n])
  {
    if n == 0 {
      NewDeviceSynced(life[0].server, user, life[0].rows);
    } else {
      SyncedForLife(user, life, moves, n - 1);
      NextOf(user, life, moves, n - 1);
      NextKeepsSync(user, life[n - 1], moves[n - 1], life[n]);
    }
  }

  lemma NextOf(user: Id, life: seq<Moment>, moves: seq<Move>, i: nat)
    requires Life(user, life, moves) && i < |moves|
    ensures Next(user, life[i], moves[i], life[i + 1])
  {
  }

  // ----- what devices in sync agree on -----

  /** The device holds no version of the record the server does not have: none newer, and none at the time
      of a tombstone. */
  predicate NothingNewer(s: Server, rows: map<Key, Local>, k: Key)
    requires k in s.rows
  {
    k in rows ==> rows[k].updatedAt < s.rows[k].updatedAt || (rows[k].updatedAt == s.rows[k].updatedAt && Live(s.rows[k]))
  }

  /** A device in sync holds a record it has nothing newer of as the server does: live at the server's time
      and with its contents, unless excused; and not at all if the server shows it as deleted. */
  lemma PulledAsServed(s: Server, user: Id, cursor: nat, rows: map<Key, Local>, excused: set<Key>, k: Key)
    requires Synced(s, user, cursor, rows, excused) && UpTo(s, user, cursor, k) && NothingNewer(s, rows, k)
    ensures Live(s.rows[k]) && k !in excused ==>
      k in rows && rows[k].updatedAt == s.rows[k].updatedAt && SameContent(rows[k].body, s.rows[k].body, k.id)
    ensures !Live(s.rows[k]) ==> k !in rows
  {
  }

  /** Two devices in sync, each at a cursor of its own, agree on every record at or below both cursors that
      neither is excused from: on whether they hold it, on its time, and on its contents, each having the
      server's up to the local title. */
  lemma PulledDevicesAgree(s: Server, user: Id, cursor1: nat, rows1: map<Key, Local>, excused1: set<Key>,
                           cursor2: nat, rows2: map<Key, Local>, excused2: set<Key>, k: Key)
    requires Synced(s, user, cursor1, rows1, excused1) && Synced(s, user, cursor2, rows2, excused2)
    requires UpTo(s, user, cursor1, k) && UpTo(s, user, cursor2, k) && k !in excused1 && k !in excused2
    requires NothingNewer(s, rows1, k) && NothingNewer(s, rows2, k)
    ensures k in rows1 <==> k in rows2
    ensures k in rows1 && k in rows2 ==>
      rows1[k].updatedAt == rows2[k].updatedAt == s.rows[k].updatedAt
      && SameContent(rows1[k].body, s.rows[k].body, k.id) && SameContent(rows2[k].body, s.rows[k].body, k.id)
  {
    PulledAsServed(s, user, cursor1, rows1, excused1, k);
    PulledAsServed(s, user, cursor2, rows2, excused2, k);
  }

  /** So two devices of any lives on one server agree on every record at or below both cursors. */
  lemma LivesAgree(user: Id, life1: seq<Moment>, moves1: seq<Move>, life2: seq<Moment>, moves2: seq<Move>, k: Key)
    requires Life(user, life1, moves1) && Life(user, life2, moves2)
    requires var (a, b) := (life1[|moves1|], life2[|moves2|]);
      && a.server == b.server && UpTo(a.server, user, a.cursor, k) && UpTo(b.server, user, b.cursor, k)
      && k !in a.excused && k !in b.excused && NothingNewer(a.server, a.rows, k) && NothingNewer(b.server, b.rows, k)
    ensures var (a, b) := (life1[|moves1|], life2[|moves2|]);
      && (k in a.rows <==> k in b.rows)
      && (k in a.rows && k in b.rows ==>
            a.rows[k].updatedAt == b.rows[k].updatedAt == a.server.rows[k].updatedAt
            && SameContent(a.rows[k].body, a.server.rows[k].body, k.id) && SameContent(b.rows[k].body, a.server.rows[k].body, k.id))
  {
    var a, b := life1[|moves1|], life2[|moves2|];
    SyncedForLife(user, life1, moves1, |moves1|);
    SyncedForLife(user, life2, moves2, |moves2|);
    PulledDevicesAgree(a.server, user, a.cursor, a.rows, a.excused, b.cursor, b.rows, b.excused, k);
  }
}
