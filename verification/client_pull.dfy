// Applying pulled records on the client: last-write-wins against the local rows, the
// topic cascade, poison records, and the forward-only cursor.

module ClientPull {
  import opened SyncTypes
  import opened LastWriteWins
  import opened ServerApply
  import opened Paging
  import opened Outbox

  datatype Applied = Done(rows: map<Key, Local>, poisoned: bool) | Refused

  function UpdatedAt(rows: map<Key, Local>, k: Key): Option<Time> {
    if k in rows then Some(rows[k].updatedAt) else None
  }

  /** A deleted topic takes its local cards along. */
  predicate FallsLocally(rows: map<Key, Local>, gone: Key, k: Key)
    requires k in rows
  {
    k == gone || (gone.table.Topics? && rows[k].body.CardBody? && rows[k].body.topicId == gone.id)
  }

  function DeleteLocal(rows: map<Key, Local>, gone: Key): map<Key, Local> {
    map k | k in rows && !FallsLocally(rows, gone, k) :: rows[k]
  }

  /** A local topic with this title. */
  predicate Titled(rows: map<Key, Local>, k: Key, title: string) {
    k in rows && k.table.Topics? && rows[k].body.TopicBody? && rows[k].body.title == title
  }

  /** The unique title index of the local topic store refuses the title: another topic has it. */
  predicate TitleTaken(rows: map<Key, Local>, title: string, mine: Key) {
    exists k :: k in rows && k != mine && Titled(rows, k, title)
  }

  /** Local topics have pairwise different titles. */
  ghost predicate TitlesDiffer(rows: map<Key, Local>) {
    forall j, k, title :: Titled(rows, j, title) && Titled(rows, k, title) ==> j == k
  }

  /** A live record as it is stored locally: a topic whose title is taken gets its short id appended;
      if that is taken too the write fails. */
  function LocalForm(rows: map<Key, Local>, r: PageRow): Option<Local> {
    if !r.row.body.TopicBody? || !TitleTaken(rows, r.row.body.title, r.key) then Some(Local(r.row.body, r.row.updatedAt))
    else
      var title := Disambiguated(r.row.body.title, r.key.id);
      if TitleTaken(rows, title, r.key) then None
      else Some(Local(r.row.body.(title := title), r.row.updatedAt))
  }

  /** Applies one pulled record. `readable` says whether the client can decode it. */
  function ApplyRecord(rows: map<Key, Local>, r: PageRow, readable: bool): Applied {
    var at := UpdatedAt(rows, r.key);
    if !Live(r.row) then
      if at.Some? && ShouldApplyRemote(at, r.row.updatedAt) then Done(DeleteLocal(rows, r.key), false) else Done(rows, false)
    else if !ShouldApplyRemote(at, r.row.updatedAt) then Done(rows, false)
    else if !readable then Done(rows, true)
    else match LocalForm(rows, r)
      case None => Refused
      case Some(local) => Done(rows[r.key := local], false)
  }

  /** Forward only. */
  function AdvanceCursor(cursor: nat, watermark: nat): nat {
    if watermark > cursor then watermark else cursor
  }

  /** Local rows only ever get newer, or leave with a delete at least as new or with their topic. */
  lemma ApplyRecordMovesForward(rows: map<Key, Local>, r: PageRow, readable: bool, k: Key)
    requires ApplyRecord(rows, r, readable).Done? && k in rows
    ensures var after := ApplyRecord(rows, r, readable).rows;
      && (k in after ==> after[k] == rows[k] || (k == r.key && after[k].updatedAt == r.row.updatedAt > rows[k].updatedAt))
      && (k !in after ==> !Live(r.row) && r.key in rows && rows[r.key].updatedAt < r.row.updatedAt && FallsLocally(rows, r.key, k))
  {
  }

  /** After its record is applied, the local row is at least as new, absent only if the record is a
      tombstone, or behind only if the record is unreadable. */
  lemma ApplyRecordCatchesUp(rows: map<Key, Local>, r: PageRow, readable: bool)
    requires ApplyRecord(rows, r, readable).Done?
    ensures var after := ApplyRecord(rows, r, readable);
      && (r.key in after.rows ==> after.rows[r.key].updatedAt >= r.row.updatedAt || after.poisoned)
      && (!Live(r.row) ==> !after.poisoned && (r.key in after.rows ==> after.rows[r.key] == rows[r.key]))
      && (Live(r.row) && !after.poisoned ==> r.key in after.rows)
  {
  }
}
