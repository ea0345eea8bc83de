// Applying pulled records one after another, as the client does: decisions are taken on a snapshot
// of the local rows read when the delta starts and kept up to date by the delta's own writes.

module PullDelta {
  import opened SyncTypes
  import opened LastWriteWins
  import opened ServerApply
  import opened Paging
  import opened Outbox
  import opened ClientPull

  /** Local rows, the delta's view of their times, and the records found unreadable. */
  datatype Applying = Applying(rows: map<Key, Local>, known: map<Key, Time>, poisoned: set<Key>)

  /** Topics hold topic bodies and cards card bodies. */
  ghost predicate LocalFit(rows: map<Key, Local>) {
    forall k :: k in rows ==> rows[k].body.TopicBody? == k.table.Topics?
  }

  /** What the delta reads before it starts: the rows its records touch. */
  function Snapshot(rows: map<Key, Local>, records: seq<PageRow>): map<Key, Time> {
    map k | k in rows && exists i :: 0 <= i < |records| && records[i].key == k :: rows[k].updatedAt
  }

  /** One record; `None` when the local title index refuses even the renamed topic. */
  function ApplyKnown(a: Applying, r: PageRow, readable: bool): Option<Applying> {
    var at := if r.key in a.known then Some(a.known[r.key]) else None;
    if !Live(r.row) then
      if at.Some? && ShouldApplyRemote(at, r.row.updatedAt)
      then Some(a.(rows := DeleteLocal(a.rows, r.key), known := a.known - {r.key}))
      else Some(a)
    else if !ShouldApplyRemote(at, r.row.updatedAt) then Some(a)
    else if !readable then Some(a.(poisoned := a.poisoned + {r.key}))
    else match LocalForm(a.rows, r)
      case None => None
      case Some(local) => Some(a.(rows := a.rows[r.key := local], known := a.known[r.key := r.row.updatedAt]))
  }

  /** What the delta believes about the record's row. */
  function View(a: Applying, k: Key): Option<Time> {
    if k in a.known then Some(a.known[k]) else None
  }

  /** With an accurate view of the record's row, this is the atomic compare-and-write. */
  lemma AccurateIsAtomic(a: Applying, r: PageRow, readable: bool)
    requires View(a, r.key) == UpdatedAt(a.rows, r.key)
    ensures match ApplyKnown(a, r, readable)
      case None => ApplyRecord(a.rows, r, readable).Refused?
      case Some(b) => ApplyRecord(a.rows, r, readable) == Done(b.rows, b.poisoned != a.poisoned)
                      || (r.key in a.poisoned && ApplyRecord(a.rows, r, readable).Done? && ApplyRecord(a.rows, r, readable).rows == b.rows)
  {
  }

  /** The record is written or its row deleted: the view lets it win, and a live record can be read. */
  predicate TakesEffect(a: Applying, r: PageRow, readable: bool) {
    if Live(r.row) then readable && (r.key !in a.known || a.known[r.key] < r.row.updatedAt)
    else r.key in a.known && a.known[r.key] < r.row.updatedAt
  }

  /** Two other topics have the title of the record and the longer one it would get instead. */
  ghost predicate BothTitlesTaken(rows: map<Key, Local>, r: PageRow) {
    Live(r.row) && r.row.body.TopicBody?
    && (exists j :: j != r.key && Titled(rows, j, r.row.body.title))
    && (exists j :: j != r.key && Titled(rows, j, Disambiguated(r.row.body.title, r.key.id)))
  }

  /** What a live record is stored as: as it came, but for the title of a topic, which gets the short id if
      another topic has it. */
  ghost predicate IsStoredFor(local: Local, rows: map<Key, Local>, r: PageRow) {
    && local.updatedAt == r.row.updatedAt
    && if r.row.body.TopicBody? && (exists j :: j != r.key && Titled(rows, j, r.row.body.title))
       then local.body == r.row.body.(title := Disambiguated(r.row.body.title, r.key.id))
       else local.body == r.row.body
  }

  /** A record is refused exactly when it would be written and two other topics have both its titles. */
  lemma RefusedIff(a: Applying, r: PageRow, readable: bool)
    ensures ApplyKnown(a, r, readable).None? <==> Live(r.row) && TakesEffect(a, r, readable) && BothTitlesTaken(a.rows, r)
  {
  }

  /** A live record that takes effect is stored under its key, all other rows staying as they are; a deleted
      one takes away its row and, if it is a topic, exactly that topic's cards; and a record that does not
      take effect changes no row, but is booked if it is unreadable. */
  lemma RecordWrites(a: Applying, r: PageRow, readable: bool, k: Key)
    requires ApplyKnown(a, r, readable).Some?
    ensures var b := ApplyKnown(a, r, readable).value;
      && (TakesEffect(a, r, readable) && Live(r.row) ==>
            r.key in b.rows && IsStoredFor(b.rows[r.key], a.rows, r) && b.rows == a.rows[r.key := b.rows[r.key]])
      && (TakesEffect(a, r, readable) && !Live(r.row) ==>
            && (k in b.rows <==> k in a.rows && k != r.key
                                 && !(r.key.table.Topics? && a.rows[k].body.CardBody? && a.rows[k].body.topicId == r.key.id))
            && (k in b.rows ==> b.rows[k] == a.rows[k]))
      && (!TakesEffect(a, r, readable) ==> b.rows == a.rows)
      && b.poisoned == a.poisoned + (if Live(r.row) && !readable && TakesEffect(a, r, true) then {r.key} else {})
  {
  }

  /** Local topic titles stay pairwise different. */
  lemma RecordKeepsTitles(a: Applying, r: PageRow, readable: bool)
    requires ApplyKnown(a, r, readable).Some? && TitlesDiffer(a.rows)
    ensures TitlesDiffer(ApplyKnown(a, r, readable).value.rows)
  {
    var rows := ApplyKnown(a, r, readable).value.rows;
    forall j, k, title | Titled(rows, j, title) && Titled(rows, k, title) ensures j == k {
      assert j != r.key ==> Titled(a.rows, j, title);
      assert k != r.key ==> Titled(a.rows, k, title);
    }
  }

  /** Records applied one after the other, as far as none is refused. */
  function ApplyRecordsTo(a: Applying, records: seq<PageRow>, readable: PageRow -> bool): Option<Applying> {
    if records == [] then Some(a)
    else
      var n := |records| - 1;
      var before := ApplyRecordsTo(a, records[..n], readable);
      if before.None? then None else ApplyKnown(before.value, records[n], readable(records[n]))
  }

  /** Exactly when a local row survives a record as it is. A row of the record's own key that is newer
      survives if and only if the record does not take effect, which depends on the view alone; a row of
      another key falls if and only if it is a card of the deleted topic, however new it is. */
  lemma RowSurvivesIff(a: Applying, r: PageRow, readable: bool, k: Key)
    requires ApplyKnown(a, r, readable).Some? && k in a.rows
    requires k == r.key ==> a.rows[k].updatedAt > r.row.updatedAt
    ensures var rows := ApplyKnown(a, r, readable).value.rows;
      k in rows && rows[k] == a.rows[k]
      <==> !(TakesEffect(a, r, readable) && (k == r.key || (!Live(r.row) && FallsLocally(a.rows, r.key, k))))
  {
  }

  /** A row edited between two records of a delta, after the view was taken, is overwritten by an older
      record of its key that the view lets win, and the operation still queued for the edit will then
      carry the older version: the edit is lost. */
  lemma EditBetweenRecordsLost(start: map<Key, Local>, first: PageRow, r: PageRow, body: Body, at: Time, item: Item)
    requires first.key != r.key && ApplyKnown(Applying(start, Snapshot(start, [first, r]), {}), first, true).Some?
    requires Live(r.row) && r.key in start && start[r.key].updatedAt < r.row.updatedAt < at
    requires Live(first.row) && item.key == r.key && item.operation.Upsert?
    ensures var a := ApplyKnown(Applying(start, Snapshot(start, [first, r]), {}), first, true).value;
      var edited := a.(rows := a.rows[r.key := Local(body, at)]);
      var last := ApplyKnown(edited, r, true);
      last.Some? ==>
        && r.key in last.value.rows && last.value.rows[r.key].updatedAt == r.row.updatedAt < at
        && MutationFor(item, last.value.rows).Some? && MutationFor(item, last.value.rows).value.updatedAt < at
  {
    var records := [first, r];
    assert records[1].key == r.key;
    assert r.key in Snapshot(start, records);
  }

  // ----- what every run of records keeps -----

  function TopicOf(body: Body): Option<Id> {
    if body.CardBody? then Some(body.topicId) else None
  }

  /** The same contents, up to the longer title a topic may have been given locally. */
  predicate SameContent(local: Body, remote: Body, id: Id) {
    local == remote
    || (remote.TopicBody? && local == remote.(title := Disambiguated(remote.title, id)))
  }

  /** A local row is the one the pull started with, or a received version of its record. */
  ghost predicate FromStartOr(start: map<Key, Local>, received: seq<PageRow>, k: Key, local: Local) {
    (k in start && local == start[k])
    || exists r :: r in received && r.key == k && Live(r.row) && local.updatedAt == r.row.updatedAt
                   && SameContent(local.body, r.row.body, k.id)
  }

  /** A received topic delete that beat the topic's local row took the topic's cards along. */
  predicate TopicGone(start: map<Key, Local>, t: PageRow) {
    t.key.table.Topics? && !Live(t.row) && t.key in start && start[t.key].updatedAt < t.row.updatedAt
  }

  /** The record may have fallen with such a topic, which it belonged to at the start or as received. */
  ghost predicate Fell(start: map<Key, Local>, received: seq<PageRow>, k: Key) {
    exists t :: t in received && TopicGone(start, t)
      && ((k in start && TopicOf(start[k].body) == Some(t.key.id))
          || exists r :: r in received && r.key == k && TopicOf(r.row.body) == Some(t.key.id))
  }

  /** A row the device started with is still there as it was, or fell with its topic, or gave way to a newer
      version that was received: replaced by a live one, removed by a deleted one. */
  ghost predicate Kept(start: map<Key, Local>, received: seq<PageRow>, rows: map<Key, Local>, k: Key)
    requires k in start
  {
    (k in rows && rows[k] == start[k]) || Fell(start, received, k)
    || exists r :: r in received && r.key == k && start[k].updatedAt < r.row.updatedAt && Live(r.row) == (k in rows)
  }

  /** The record has taken effect: a live one is matched by a local row at least as new, or unreadable,
      or gone with its topic; no local row is older than a tombstone. */
  ghost predicate Settled(start: map<Key, Local>, received: seq<PageRow>, rows: map<Key, Local>, poisoned: set<Key>, r: PageRow) {
    if Live(r.row)
    then r.key in poisoned || (r.key in rows && rows[r.key].updatedAt >= r.row.updatedAt) || Fell(start, received, r.key)
    else r.key in rows ==> rows[r.key].updatedAt >= r.row.updatedAt
  }

  /** The view of a record is accurate, except that it may still show a row that fell. */
  ghost predicate ViewHolds(start: map<Key, Local>, received: seq<PageRow>, a: Applying, k: Key) {
    && (k in a.rows ==> k in a.known && a.known[k] == a.rows[k].updatedAt)
    && (k in a.known && k !in a.rows ==> Fell(start, received, k))
  }

  ghost predicate FitsTable(r: PageRow) { r.row.body.TopicBody? == r.key.table.Topics? }

  /** The state after the records received so far: every row comes from the start or was received, every
      row of the start is kept or accounted for, and every received record is in effect. */
  ghost predicate Progressing(start: map<Key, Local>, received: seq<PageRow>, a: Applying) {
    && LocalFit(start) && LocalFit(a.rows) && (forall r :: r in received ==> FitsTable(r))
    && (forall k :: k in a.rows ==> FromStartOr(start, received, k, a.rows[k]))
    && (forall k :: k in start ==> Kept(start, received, a.rows, k))
    && (forall r :: r in received ==> Settled(start, received, a.rows, a.poisoned, r))
  }

  lemma FellGrows(start: map<Key, Local>, received: seq<PageRow>, r: PageRow, k: Key)
    requires Fell(start, received, k)
    ensures Fell(start, received + [r], k)
  {
    var t :| t in received && TopicGone(start, t)
      && ((k in start && TopicOf(start[k].body) == Some(t.key.id))
          || exists q :: q in received && q.key == k && TopicOf(q.row.body) == Some(t.key.id));
    assert t in received + [r];
    if !(k in start && TopicOf(start[k].body) == Some(t.key.id)) {
      var q :| q in received && q.key == k && TopicOf(q.row.body) == Some(t.key.id);
      assert q in received + [r];
    }
  }

  /** Topics do not fall. */
  lemma TopicsStand(start: map<Key, Local>, received: seq<PageRow>, k: Key)
    requires LocalFit(start) && (forall r :: r in received ==> FitsTable(r)) && k.table.Topics?
    ensures !Fell(start, received, k)
  {
  }

  lemma FromGrows(start: map<Key, Local>, received: seq<PageRow>, r: PageRow, k: Key, local: Local)
    requires FromStartOr(start, received, k, local)
    ensures FromStartOr(start, received + [r], k, local)
  {
    if !(k in start && local == start[k]) {
      var q :| q in received && q.key == k && Live(q.row) && local.updatedAt == q.row.updatedAt
               && SameContent(local.body, q.row.body, k.id);
      assert q in received + [r];
    }
  }

  /** The record is one of a key not seen before, and the view of its row holds. */
  ghost predicate NextUp(start: map<Key, Local>, received: seq<PageRow>, a: Applying, r: PageRow, readable: bool) {
    && Progressing(start, received, a) && FitsTable(r) && ViewHolds(start, received, a, r.key)
    && (forall q :: q in received ==> q.key != r.key) && ApplyKnown(a, r, readable).Some?
  }

  /** Until its record comes, a row is as it was at the start. */
  lemma RowAsAtStart(start: map<Key, Local>, received: seq<PageRow>, a: Applying, r: PageRow, readable: bool)
    requires NextUp(start, received, a, r, readable) && r.key in a.rows
    ensures r.key in start && a.rows[r.key] == start[r.key] && a.known[r.key] == start[r.key].updatedAt
  {
    assert FromStartOr(start, received, r.key, a.rows[r.key]);
  }

  /** A row the cascade of a topic delete took had that topic, at the start or as received. */
  lemma CascadeFell(start: map<Key, Local>, received: seq<PageRow>, a: Applying, r: PageRow, readable: bool, k: Key)
    requires NextUp(start, received, a, r, readable)
    requires k in a.rows && k != r.key && k !in ApplyKnown(a, r, readable).value.rows
    ensures Fell(start, received + [r], k)
  {
    assert r in received + [r];
    if r.key in a.rows {
      RowAsAtStart(start, received, a, r, readable);
    } else {
      TopicsStand(start, received, r.key);
    }
    assert TopicGone(start, r);
    assert FromStartOr(start, received, k, a.rows[k]);
    if !(k in start && a.rows[k] == start[k]) {
      var q :| q in received && q.key == k && Live(q.row) && a.rows[k].updatedAt == q.row.updatedAt
               && SameContent(a.rows[k].body, q.row.body, k.id);
      assert q in received + [r];
    }
  }

  lemma NextFrom(start: map<Key, Local>, received: seq<PageRow>, a: Applying, r: PageRow, readable: bool, k: Key)
    requires NextUp(start, received, a, r, readable) && k in ApplyKnown(a, r, readable).value.rows
    ensures FromStartOr(start, received + [r], k, ApplyKnown(a, r, readable).value.rows[k])
  {
    var b := ApplyKnown(a, r, readable).value;
    if k in a.rows && b.rows[k] == a.rows[k] {
      FromGrows(start, received, r, k, a.rows[k]);
    } else {
      assert r in received + [r];
    }
  }

  lemma NextView(start: map<Key, Local>, received: seq<PageRow>, a: Applying, r: PageRow, readable: bool, k: Key)
    requires NextUp(start, received, a, r, readable) && ViewHolds(start, received, a, k)
    ensures ViewHolds(start, received + [r], ApplyKnown(a, r, readable).value, k)
  {
    var b := ApplyKnown(a, r, readable).value;
    if k in b.known && k !in b.rows {
      if k in a.rows {
        assert k != r.key;
        CascadeFell(start, received, a, r, readable, k);
      } else {
        FellGrows(start, received, r, k);
      }
    }
  }

  lemma KeptGrows(start: map<Key, Local>, received: seq<PageRow>, rows: map<Key, Local>, r: PageRow, k: Key)
    requires k in start && Kept(start, received, rows, k)
    ensures Kept(start, received + [r], rows, k)
  {
    if Fell(start, received, k) {
      FellGrows(start, received, r, k);
    } else if !(k in rows && rows[k] == start[k]) {
      var q :| q in received && q.key == k && start[k].updatedAt < q.row.updatedAt && Live(q.row) == (k in rows);
      assert q in received + [r];
    }
  }

  /** One more record: a row of the start is still kept, or gives way to this very record. */
  lemma NextKept(start: map<Key, Local>, received: seq<PageRow>, a: Applying, r: PageRow, readable: bool, k: Key)
    requires NextUp(start, received, a, r, readable) && k in start
    ensures Kept(start, received + [r], ApplyKnown(a, r, readable).value.rows, k)
  {
    var b := ApplyKnown(a, r, readable).value;
    KeptGrows(start, received, a.rows, r, k);
    if k == r.key {
      assert r in received + [r];
      if k in a.rows { RowAsAtStart(start, received, a, r, readable); }
    } else if k in a.rows && k !in b.rows {
      CascadeFell(start, received, a, r, readable, k);
    } else {
      SameRowKept(start, received + [r], a.rows, b.rows, k);
    }
  }

  lemma SameRowKept(start: map<Key, Local>, received: seq<PageRow>, rows: map<Key, Local>, rows1: map<Key, Local>, k: Key)
    requires k in start && Kept(start, received, rows, k)
    requires (k in rows <==> k in rows1) && (k in rows ==> rows1[k] == rows[k])
    ensures Kept(start, received, rows1, k)
  {
  }

  /** An earlier record stays settled when a record of another key is applied. */
  lemma EarlierStaysSettled(start: map<Key, Local>, received: seq<PageRow>, a: Applying, r: PageRow, readable: bool, q: PageRow)
    requires NextUp(start, received, a, r, readable) && q in received
    ensures var b := ApplyKnown(a, r, readable).value; Settled(start, received + [r], b.rows, b.poisoned, q)
  {
    var b := ApplyKnown(a, r, readable).value;
    assert Settled(start, received, a.rows, a.poisoned, q);
    if Live(q.row) && q.key !in a.poisoned {
      if q.key in a.rows && a.rows[q.key].updatedAt >= q.row.updatedAt {
        if q.key !in b.rows { CascadeFell(start, received, a, r, readable, q.key); }
      } else {
        FellGrows(start, received, r, q.key);
      }
    }
  }

  lemma OwnRecordSettled(start: map<Key, Local>, received: seq<PageRow>, a: Applying, r: PageRow, readable: bool)
    requires NextUp(start, received, a, r, readable)
    ensures var b := ApplyKnown(a, r, readable).value; Settled(start, received + [r], b.rows, b.poisoned, r)
  {
    if r.key in a.known && r.key !in a.rows { FellGrows(start, received, r, r.key); }
  }

  /** One more record of a key not seen before: everything received so far is in effect, and every row the
      device started with is still kept or accounted for. */
  lemma RecordProgresses(start: map<Key, Local>, received: seq<PageRow>, a: Applying, r: PageRow, readable: bool)
    requires NextUp(start, received, a, r, readable)
    ensures Progressing(start, received + [r], ApplyKnown(a, r, readable).value)
  {
    var b := ApplyKnown(a, r, readable).value;
    forall k | k in b.rows ensures FromStartOr(start, received + [r], k, b.rows[k]) {
      NextFrom(start, received, a, r, readable, k);
    }
    forall k | k in start ensures Kept(start, received + [r], b.rows, k) {
      NextKept(start, received, a, r, readable, k);
    }
    forall q | q in received + [r] ensures Settled(start, received + [r], b.rows, b.poisoned, q) {
      if q in received {
        EarlierStaysSettled(start, received, a, r, readable, q);
      } else {
        OwnRecordSettled(start, received, a, r, readable);
      }
    }
  }
}
