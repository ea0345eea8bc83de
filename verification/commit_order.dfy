// The sequence allocator under concurrency: apply transactions of one user interleave
// statement by statement with each other and with snapshot pulls.

module CommitOrder {
  import opened SyncTypes

  /** An apply transaction: not running, or holding the user's row lock with uncommitted work. */
  datatype Tx = Idle | Holding(counter: nat, writes: map<Key, nat>)

  /** A device's pull progress: its cursor and every (record, sequence) it was ever delivered. */
  datatype Puller = Puller(cursor: nat, seen: set<(Key, nat)>)

  /** Committed data, running transactions, pullers, and the log of committed sequences. */
  datatype Db = Db(seqNo: nat, rows: map<Key, nat>, txs: map<Id, Tx>, pullers: map<Id, Puller>, log: seq<nat>)

  datatype Step =
    | Lock(tx: Id)
    | Write(tx: Id, k: Key)
    | Commit(tx: Id)
    | Abort(tx: Id)
    | Pull(device: Id, upTo: nat)

  predicate IsHolding(db: Db, tx: Id) {
    tx in db.txs && db.txs[tx].Holding?
  }

  /** The lock is free for a first statement only while no transaction of the user holds it. A pull
      stops at its cursor or at a row above it: its watermark is the last row of the page. */
  predicate Enabled(db: Db, step: Step) {
    match step
    case Lock(tx) => forall t :: t in db.txs ==> db.txs[t].Idle?
    case Write(tx, _) => IsHolding(db, tx)
    case Commit(tx) => IsHolding(db, tx)
    case Abort(tx) => IsHolding(db, tx)
    case Pull(d, upTo) =>
      d in db.pullers && (upTo == db.pullers[d].cursor || (upTo > db.pullers[d].cursor && upTo in db.rows.Values))
  }

  /** The sequences of a transaction's surviving and overwritten writes, in the order they were drawn. */
  function Drawn(from: nat, to: nat): seq<nat> {
    if to <= from then [] else Drawn(from, to - 1) + [to]
  }

  function Do(db: Db, step: Step): Db
    requires Enabled(db, step)
  {
    match step
    case Lock(tx) => db.(txs := db.txs[tx := Holding(db.seqNo, map[])])
    case Write(tx, k) =>
      var t := db.txs[tx];
      db.(txs := db.txs[tx := Holding(t.counter + 1, t.writes[k := t.counter + 1])])
    case Commit(tx) =>
      var t := db.txs[tx];
      db.(seqNo := t.counter, rows := db.rows + t.writes, txs := db.txs[tx := Idle],
          log := db.log + Drawn(db.seqNo, t.counter))
    case Abort(tx) => db.(txs := db.txs[tx := Idle])
    case Pull(d, upTo) =>
      var p := db.pullers[d];
      var page := set k | k in db.rows && p.cursor < db.rows[k] <= upTo :: (k, db.rows[k]);
      db.(pullers := db.pullers[d := Puller(upTo, p.seen + page)])
  }

  ghost predicate Fresh(db: Db) {
    db.seqNo == 0 && db.rows == map[] && db.log == []
    && (forall t :: t in db.txs ==> db.txs[t].Idle?)
    && (forall d :: d in db.pullers ==> db.pullers[d] == Puller(0, {}))
  }

  ghost predicate Runs(db: Db, steps: seq<Step>)
    decreases |steps|
  {
    steps == [] || (Enabled(db, steps[0]) && Runs(Do(db, steps[0]), steps[1..]))
  }

  ghost function Run(db: Db, steps: seq<Step>): Db
    requires Runs(db, steps)
    decreases |steps|
  {
    if steps == [] then db else Run(Do(db, steps[0]), steps[1..])
  }

  /** At most one transaction works at a time, and only above everything committed or answered. */
  ghost predicate Invariant(db: Db) {
    && (forall t, u :: IsHolding(db, t) && IsHolding(db, u) ==> t == u)
    && (forall t :: IsHolding(db, t) ==> db.seqNo <= db.txs[t].counter)
    && (forall t, k :: IsHolding(db, t) && k in db.txs[t].writes ==> db.seqNo < db.txs[t].writes[k] <= db.txs[t].counter)
    && (forall k :: k in db.rows ==> 0 < db.rows[k] <= db.seqNo)
    && (forall d :: d in db.pullers ==> db.pullers[d].cursor <= db.seqNo)
    && NothingSkipped(db)
    && db.log == Drawn(0, db.seqNo)
  }

  /** Every committed row at or below a device's cursor was delivered to it in that very version. */
  ghost predicate NothingSkipped(db: Db) {
    forall d, k :: d in db.pullers && k in db.rows && db.rows[k] <= db.pullers[d].cursor ==>
      (k, db.rows[k]) in db.pullers[d].seen
  }

  /** Nobody is blocked for good: while a transaction works, it can go on, commit or abort, and then the next one
      can lock; while none does, any can; and a pull is always answered. */
  lemma NobodyIsBlocked(db: Db, tx: Id, k: Key, d: Id)
    requires Invariant(db)
    ensures IsHolding(db, tx) ==>
      Enabled(db, Write(tx, k)) && Enabled(db, Abort(tx)) && Enabled(db, Commit(tx))
      && forall next :: Enabled(Do(db, Commit(tx)), Lock(next)) && Enabled(Do(db, Abort(tx)), Lock(next))
    ensures (forall t :: !IsHolding(db, t)) ==> Enabled(db, Lock(tx)) && IsHolding(Do(db, Lock(tx)), tx)
    ensures d in db.pullers && k in db.rows && db.rows[k] > db.pullers[d].cursor ==>
      Enabled(db, Pull(d, db.rows[k])) && Do(db, Pull(d, db.rows[k])).pullers[d].cursor == db.rows[k]
  {
    forall t | t in db.txs ensures IsHolding(db, t) <==> !db.txs[t].Idle? {
    }
  }

  lemma {:induction false} DrawnConcat(a: nat, b: nat, c: nat)
    requires a <= b <= c
    ensures Drawn(a, b) + Drawn(b, c) == Drawn(a, c)
    decreases c
  {
    if b < c {
      DrawnConcat(a, b, c - 1);
      assert Drawn(a, b) + (Drawn(b, c - 1) + [c]) == (Drawn(a, b) + Drawn(b, c - 1)) + [c];
    }
  }

  lemma CommitKeeps(db: Db, tx: Id)
    requires Invariant(db) && Enabled(db, Commit(tx))
    ensures Invariant(Do(db, Commit(tx)))
  {
    var after := Do(db, Commit(tx));
    forall t ensures !IsHolding(after, t) {
      assert IsHolding(after, t) ==> IsHolding(db, t);
    }
    DrawnConcat(0, db.seqNo, db.txs[tx].counter);
  }

  lemma PullKeeps(db: Db, d: Id, upTo: nat)
    requires Invariant(db) && Enabled(db, Pull(d, upTo))
    ensures Invariant(Do(db, Pull(d, upTo)))
  {
    var after := Do(db, Pull(d, upTo));
    var p := db.pullers[d];
    forall t ensures IsHolding(after, t) == IsHolding(db, t) {
    }
    forall k | k in db.rows && db.rows[k] <= upTo ensures (k, db.rows[k]) in after.pullers[d].seen {
      if db.rows[k] > p.cursor {
        var page := set j | j in db.rows && p.cursor < db.rows[j] <= upTo :: (j, db.rows[j]);
        assert (k, db.rows[k]) in page;
      }
    }
  }

  lemma StepKeepsInvariant(db: Db, step: Step)
    requires Invariant(db) && Enabled(db, step)
    ensures Invariant(Do(db, step))
  {
    match step
    case Commit(tx) => CommitKeeps(db, tx);
    case Pull(d, upTo) => PullKeeps(db, d, upTo);
    case _ =>
      forall t | IsHolding(Do(db, step), t) ensures step == Lock(t) || IsHolding(db, t) {
      }
  }

  lemma {:induction false} RunKeepsInvariant(db: Db, steps: seq<Step>)
    requires Invariant(db) && Runs(db, steps)
    ensures Invariant(Run(db, steps))
    decreases |steps|
  {
    if steps != [] {
      StepKeepsInvariant(db, steps[0]);
      RunKeepsInvariant(Do(db, steps[0]), steps[1..]);
    }
  }

  /** In every run from an empty database, a commit publishes only sequences above every watermark
      any pull was ever answered with. */
  lemma CommitsAboveEveryWatermark(db: Db, steps: seq<Step>, tx: Id)
    requires Fresh(db) && Runs(db, steps) && Enabled(Run(db, steps), Commit(tx))
    ensures var s := Run(db, steps);
      forall d, k :: d in s.pullers && k in s.txs[tx].writes ==> s.pullers[d].cursor < s.txs[tx].writes[k]
  {
    RunKeepsInvariant(db, steps);
  }

  /** In every run, a moving cursor never skips a committed row version. */
  lemma CursorNeverSkips(db: Db, steps: seq<Step>, d: Id, k: Key)
    requires Fresh(db) && Runs(db, steps)
    requires var s := Run(db, steps); d in s.pullers && k in s.rows && s.rows[k] <= s.pullers[d].cursor
    ensures (k, Run(db, steps).rows[k]) in Run(db, steps).pullers[d].seen
  {
    RunKeepsInvariant(db, steps);
  }

  /** In every run, sequences commit in order and without gaps: 1, 2, 3, ... */
  lemma CommitOrderIsSequenceOrder(db: Db, steps: seq<Step>)
    requires Fresh(db) && Runs(db, steps)
    ensures var log := Run(db, steps).log; forall i :: 0 <= i < |log| ==> log[i] == i + 1
  {
    RunKeepsInvariant(db, steps);
    DrawnCounts(Run(db, steps).seqNo);
  }

  lemma {:induction false} DrawnCounts(n: nat)
    ensures |Drawn(0, n)| == n && forall i :: 0 <= i < n ==> Drawn(0, n)[i] == i + 1
  {
    if n > 0 {
      DrawnCounts(n - 1);
    }
  }
}
