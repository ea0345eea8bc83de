// Last-write-wins: who wins when two versions of one record meet, and the
// mapping between wire records and stored rows.

module LastWriteWins {
  import opened SyncTypes

  /** The server's rule: newer wins; a tie falls to the device id, then the record id. */
  function ShouldApplyIncoming(
    existingAt: Option<Time>, existingDevice: Option<Id>, existingRecord: Option<Id>,
    incomingAt: Time, incomingDevice: Id, incomingRecord: Id): bool
  {
    if existingAt.None? then true
    else if incomingAt > existingAt.value then true
    else if incomingAt < existingAt.value then false
    else
      var byDevice := Compare(incomingDevice, existingDevice.GetOr(""));
      if byDevice != 0 then byDevice > 0
      else Compare(incomingRecord, existingRecord.GetOr("")) > 0
  }

  /** The client's rule: a remote version replaces only a strictly older local one. */
  function ShouldApplyRemote(localAt: Option<Time>, remoteAt: Time): bool {
    localAt.None? || remoteAt > localAt.value
  }

  datatype Version = Version(at: Time, device: Id, record: Id)

  /** With the device id supplied, two different versions never beat each other both ways. */
  lemma ExactlyOneVersionWins(a: Version, b: Version)
    requires a != b
    ensures ShouldApplyIncoming(Some(a.at), Some(a.device), Some(a.record), b.at, b.device, b.record)
         != ShouldApplyIncoming(Some(b.at), Some(b.device), Some(b.record), a.at, a.device, a.record)
  {
    CompareIsOrder(a.device, b.device);
    CompareIsOrder(a.record, b.record);
  }

  /** As the server calls it, with the stored device unknown, a tie goes to the incoming write. */
  lemma ServerTieGoesToIncoming(existingAt: Time, incomingAt: Time, device: Id, record: Id)
    requires device != ""
    ensures ShouldApplyIncoming(Some(existingAt), None, Some(record), incomingAt, device, record)
       <==> incomingAt >= existingAt
  {
    CompareIsOrder(device, "");
  }

  /** Server and client pick the same side of two versions exactly when their times differ. */
  lemma ServerAndClientAgree(here: Time, there: Time, device: Id, record: Id)
    requires device != ""
    ensures ShouldApplyIncoming(Some(here), None, Some(record), there, device, record)
            == ShouldApplyRemote(Some(here), there)
       <==> here != there
  {
    ServerTieGoesToIncoming(here, there, device, record);
  }

  // ----- wire record <-> stored row -----

  /** JavaScript's `x ? x : null` on a nullable number: zero reads as absent. */
  function Truthy(x: Option<int>): Option<int> {
    if x == Some(0) then None else x
  }

  /** What is stored for an incoming body. */
  function StoredBody(body: Body): Body {
    match body
    case TopicBody(title, pivot, week, next, archived) =>
      TopicBody(title, pivot, week, next, Some(archived.GetOr(false)))
    case CardBody(topicId, level, data, reviewDate) =>
      CardBody(topicId, level, data, Truthy(reviewDate))
  }

  /** What storing changes in a body: a missing archived flag reads as false, a zero review date as none. */
  lemma StoredBodyIs(body: Body)
    ensures body.TopicBody? ==>
      var stored := StoredBody(body);
      && stored == body.(isArchived := stored.isArchived) && stored.isArchived.Some?
      && (stored.isArchived.value <==> body.isArchived.Some? && body.isArchived.value)
    ensures body.CardBody? ==> StoredBody(body) == body.(reviewDate := if body.reviewDate == Some(0) then None else body.reviewDate)
    ensures StoredBody(StoredBody(body)) == StoredBody(body)
  {
  }

  /** A record survives the trip to the database and back exactly when nothing in it reads as absent. */
  lemma MappersRoundTrip(r: Record)
    ensures Record(r.id, StoredBody(r.body), r.updatedAt, Truthy(r.deletedAt)) == r
       <==> (r.deletedAt != Some(0)
             && (r.body.TopicBody? ==> r.body.isArchived.Some?)
             && (r.body.CardBody? ==> r.body.reviewDate != Some(0)))
  {
    if r.body.TopicBody? && r.body.isArchived.Some? {
      assert r.body.isArchived == Some(r.body.isArchived.value);
    }
  }
}
