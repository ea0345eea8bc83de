// When a queued upsert and a delete cancel out, and when that loses the delete.

module Coalescing {
  import opened SyncTypes
  import opened ServerApply
  import opened Outbox
  import opened SyncSystem

  predicate Shows(s: Server, k: Key) { k in s.rows && Live(s.rows[k]) }

  /** A delete is dropped exactly when an upsert of the record is queued and not in flight; otherwise it
      is queued under its own op id with its own or, if it replaces a delete, an earlier time. */
  lemma DroppedIff(q: Queue, inFlight: set<Id>, k: Key, opId: Id, now: Time)
    ensures var q1 := Enqueue(q, inFlight, k, Delete, opId, now);
      && (k !in q1 <==> k in q && q[k].operation.Upsert? && q[k].opId !in inFlight)
      && (k in q1 ==> q1[k].opId == opId && q1[k].operation.Delete?
                      && (q1[k].createdAt == now || (k in q && q[k].operation.Delete? && q1[k].createdAt == q[k].createdAt)))
      && q1 - {k} == q - {k}
  {
  }

  /** In the composed system: deleting a record whose edit is still queued leaves the device without
      the record and without any operation for it, while the server goes on showing it. */
  lemma DeleteNeverSent(s: System, d: Id, k: Key, at: Time, opId: Id)
    requires Enabled(s, Remove(d, k, at, opId)) && Shows(s.server, k)
    requires k in s.devices[d].queue && s.devices[d].queue[k].operation.Upsert?
    requires s.devices[d].queue[k].opId !in InFlight(s.devices[d].phase)
    ensures var s1 := Do(s, Remove(d, k, at, opId));
      k !in s1.devices[d].rows && k !in s1.devices[d].queue && s1.server == s.server && Shows(s1.server, k)
  {
  }
}
