// Why convergence leaves out backdated deletes: a second delete that takes the place of an unsent one keeps
// the first one's time, and so can lose on the server though it came last.

module BackdatedDelete {
  import opened SyncTypes
  import opened ServerApply
  import opened Validation
  import opened PushBatch
  import opened Outbox
  import opened SyncSystem
  import opened Coalescing
  import opened FailingRuns
  import L = NoLostEdit
  import R = NoResurrection
  import C = Convergence

  /** The delete of a row carries a time before that row's exactly if it takes the place of an unsent delete
      that is older than the row. */
  lemma BackdatedIff(s: System, d: Id, k: Key, o: Id)
    requires R.Invariant(s) && Enabled(s, Remove(d, k, s.clock, o)) && k in s.devices[d].rows
    ensures DoRemove(s, d, k, s.clock, o).past.changes[o].at < s.devices[d].rows[k].updatedAt <==> !C.NotBackdated(s.devices[d], k)
  {
    C.FreshHasNoFuture(s, d, k);
  }

  /** The op id is new to the device and to the server. */
  predicate IsNew(s: System, d: Id, o: Id) {
    o !in s.past.changes && o !in s.past.cancelled && (d, o) !in s.past.failed && (s.user, o) !in s.server.ops
  }

  /** All the device still has to send is an unsent delete of the record, which came back in a later version;
      the server shows one at least as new, and the device has pulled all there is. */
  ghost predicate CameBack(s: System, d: Id, k: Key, item: Item) {
    && d in s.devices && s.user in s.server.seqs
    && s.devices[d].phase.Resting? && s.devices[d].queue == map[k := item] && item.key == k && item.operation.Delete?
    && 0 < item.createdAt <= s.clock
    && k in s.devices[d].rows && item.createdAt < s.devices[d].rows[k].updatedAt
    && R.Own(s, k) && Live(s.server.rows[k]) && s.devices[d].rows[k].updatedAt <= s.server.rows[k].updatedAt
    && s.devices[d].cursor >= SeqOf(s.server, s.user)
    && forall j :: (d, j) in s.past.lastOp ==>
         var p := s.past.lastOp[(d, j)]; (d, p) !in s.past.failed && (p in s.past.cancelled ==> !s.past.cancelled[p])
  }

  /** The operation the second delete is sent as. */
  function Backdated(k: Key, o: Id, item: Item): Mutation { Mutation(o, k, Delete, item.createdAt, None) }

  /** The second delete is made: the record is gone, and the queued operation has a new id and the old time. */
  lemma DeletesAgain(s: System, d: Id, k: Key, item: Item, o: Id)
    requires CameBack(s, d, k, item) && IsNew(s, d, o)
    ensures var s1 := DoRemove(s, d, k, s.clock, o);
      && s1 == s.(devices := s1.devices, past := s1.past) && d in s1.devices
      && s1.devices[d] == s.devices[d].(rows := s.devices[d].rows - {k}, queue := map[k := Item(k, o, Delete, item.createdAt, 0, 0)])
      && s1.past == s.past.(changes := s1.past.changes, lastOp := s.past.lastOp[(d, k) := o])
  {
  }

  /** The server logs it and changes no row. */
  lemma Ignored(s: Server, user: Id, d: Id, m: Mutation, now: Time)
    requires user in s.seqs && m.operation.Delete? && 0 < m.updatedAt && (user, m.opId) !in s.ops
    requires m.key in s.rows && s.rows[m.key].owner == user && m.updatedAt < s.rows[m.key].updatedAt
    ensures ApplyOp(s, user, d, m, false, Env(now, NoFault)) == (s.(ops := s.ops + {(user, m.opId)}), Accepted(None))
  {
  }

  lemma ServedIgnored(s: System, d: Id, m: Mutation, item: Item)
    requires d in s.devices && s.devices[d].phase == Pushing([item], [m], [m], 0, EMPTY_ACK) && s.user in s.server.seqs
    requires m.operation.Delete? && 0 < m.updatedAt && (s.user, m.opId) !in s.server.ops
    requires R.Own(s, m.key) && m.updatedAt < s.server.rows[m.key].updatedAt
    ensures Enabled(s, ServeNext(d, false, NoFault))
    ensures var s1 := DoServeNext(s, d, false, NoFault);
      && s1.user == s.user && s1.server == s.server.(ops := s.server.ops + {(s.user, m.opId)})
      && s1.devices == s.devices[d := s.devices[d].(phase := Pushing([item], [m], [m], 1, EMPTY_ACK.(accepted := [m.opId])))]
      && s1.past.lastOp == s.past.lastOp && s1.past.failed == s.past.failed && s1.past.cancelled == s.past.cancelled
  {
    Ignored(s.server, s.user, d, m, s.clock);
    assert EMPTY_ACK.accepted + [m.opId] == [m.opId];
  }

  lemma AckedAlone(k: Key, item: Item, wake: Id -> Time)
    requires item.key == k
    ensures ApplyAck(map[k := item], [item], EMPTY_ACK.(accepted := [item.opId]), wake) == map[]
    ensures FailedOps([item], []) == {}
  {
    var q := map[k := item];
    assert [item.opId][..0] == [];
    assert RemoveAccepted(q, [item], [item.opId]) == RemoveIfOp(q, item) == q - {k};
    assert q - {k} == map[];
  }

  lemma Acked(s: System, d: Id, m: Mutation, item: Item, wake: Id -> Time)
    requires d in s.devices && s.devices[d].queue == map[m.key := item] && item.key == m.key && item.opId == m.opId
    requires s.devices[d].phase == Pushing([item], [m], [m], 1, EMPTY_ACK.(accepted := [m.opId]))
    ensures Enabled(s, AckArrives(d, wake)) && L.Mild(s, AckArrives(d, wake))
    ensures var s1 := DoAckArrives(s, d, wake);
      && s1.user == s.user && s1.server == s.server && s1.past == s.past
      && s1.devices == s.devices[d := s.devices[d].(queue := map[], phase := Resting)]
  {
    HeardInFull(s, d, wake);
    AckedAlone(m.key, item, wake);
  }

  lemma ReachAcked(start: System, s: System, d: Id, m: Mutation, item: Item, wake: Id -> Time) returns (s1: System)
    requires Reached(start, s)
    requires d in s.devices && s.devices[d].queue == map[m.key := item] && item.key == m.key && item.opId == m.opId
    requires s.devices[d].phase == Pushing([item], [m], [m], 1, EMPTY_ACK.(accepted := [m.opId]))
    ensures Reached(start, s1) && s1.user == s.user && s1.server == s.server && s1.past == s.past
    ensures s1.devices == s.devices[d := s.devices[d].(queue := map[], phase := Resting)]
  {
    Acked(s, d, m, item, wake);
    Reach(start, s, AckArrives(d, wake));
    s1 := DoAckArrives(s, d, wake);
  }

  lemma ReachServedIgnored(start: System, s: System, d: Id, m: Mutation, item: Item) returns (s1: System)
    requires Reached(start, s)
    requires d in s.devices && s.devices[d].phase == Pushing([item], [m], [m], 0, EMPTY_ACK) && s.user in s.server.seqs
    requires m.operation.Delete? && 0 < m.updatedAt && (s.user, m.opId) !in s.server.ops
    requires R.Own(s, m.key) && m.updatedAt < s.server.rows[m.key].updatedAt
    ensures Reached(start, s1) && s1.user == s.user && s1.server == s.server.(ops := s.server.ops + {(s.user, m.opId)})
    ensures s1.devices == s.devices[d := s.devices[d].(phase := Pushing([item], [m], [m], 1, EMPTY_ACK.(accepted := [m.opId])))]
    ensures s1.past.lastOp == s.past.lastOp && s1.past.failed == s.past.failed && s1.past.cancelled == s.past.cancelled
  {
    ServedIgnored(s, d, m, item);
    Reach(start, s, ServeNext(d, false, NoFault));
    s1 := DoServeNext(s, d, false, NoFault);
  }

  /** A request under way is logged and answered. */
  lemma AnsweredInVain(start: System, s: System, d: Id, m: Mutation, item: Item, wake: Id -> Time) returns (s1: System)
    requires Reached(start, s) && d in s.devices && s.devices[d].queue == map[m.key := item] && s.user in s.server.seqs
    requires s.devices[d].phase == Pushing([item], [m], [m], 0, EMPTY_ACK) && item.key == m.key && item.opId == m.opId
    requires m.operation.Delete? && 0 < m.updatedAt && (s.user, m.opId) !in s.server.ops
    requires R.Own(s, m.key) && m.updatedAt < s.server.rows[m.key].updatedAt
    ensures Reached(start, s1) && s1.user == s.user && s1.server == s.server.(ops := s.server.ops + {(s.user, m.opId)})
    ensures s1.devices == s.devices[d := s.devices[d].(queue := map[], phase := Resting)]
    ensures s1.past.lastOp == s.past.lastOp && s1.past.failed == s.past.failed && s1.past.cancelled == s.past.cancelled
  {
    var t := ReachServedIgnored(start, s, d, m, item);
    s1 := ReachAcked(start, t, d, m, item, wake);
  }

  /** The delete is sent, logged and answered: the outbox is empty, and nothing else has changed. */
  lemma SendsInVain(s: System, d: Id, m: Mutation, item: Item, size: Mutation -> nat, wake: Id -> Time) returns (s1: System)
    requires d in s.devices && s.devices[d].phase.Resting? && s.devices[d].queue == map[m.key := item] && s.user in s.server.seqs
    requires item == Item(m.key, m.opId, Delete, m.updatedAt, 0, 0) && m == Backdated(m.key, m.opId, item)
    requires 0 < m.updatedAt <= s.clock && s.check(m).None? && (s.user, m.opId) !in s.server.ops
    requires R.Own(s, m.key) && m.updatedAt < s.server.rows[m.key].updatedAt
    ensures Reached(s, s1) && s1.user == s.user && s1.server == s.server.(ops := s.server.ops + {(s.user, m.opId)})
    ensures s1.devices == s.devices[d := s.devices[d].(queue := map[])]
    ensures s1.past.lastOp == s.past.lastOp && s1.past.failed == s.past.failed && s1.past.cancelled == s.past.cancelled
  {
    ReachStart(s);
    ReachPushed(s, s, d, m.key, item, m, size);
    s1 := AnsweredInVain(s, Pushed(s, d, item, m), d, m, item, wake);
  }

  lemma ReachedFirst(s: System, step: Step, s1: System)
    requires Enabled(s, step) && L.Mild(s, step) && R.Strict(s, step) && Reached(Do(s, step), s1)
    ensures Reached(s, s1)
  {
    var rest :| RunTo(Do(s, step), rest, s1);
    Prepend(s, step, rest, s1);
    assert RunTo(s, [step] + rest, s1);
  }

  /** A backdated delete is lost: four steps on, each meeting the hypotheses of both run theorems, the delete
      has been sent, logged and answered, and it is the device's latest change to the record; the device has
      nothing left to send and nothing to pull, and does not have the record, which the server shows as before. */
  lemma BackdatedDeleteIsLost(s: System, d: Id, k: Key, item: Item, o: Id, size: Mutation -> nat, wake: Id -> Time)
    returns (s1: System)
    requires CameBack(s, d, k, item) && IsNew(s, d, o) && s.check(Backdated(k, o, item)).None?
    ensures Reached(s, s1) && s1.server.rows == s.server.rows && Shows(s1.server, k)
    ensures C.UpToDate(s1, d) && !C.AsServed(s1, d, k)
    ensures (d, k) in s1.past.lastOp && s1.past.lastOp[(d, k)] == o && (s1.user, o) in s1.server.ops
  {
    var m, next := Backdated(k, o, item), Item(k, o, Delete, item.createdAt, 0, 0);
    var t := DoRemove(s, d, k, s.clock, o);
    DeletesAgain(s, d, k, item, o);
    s1 := SendsInVain(t, d, m, next, size, wake);
    ReachedFirst(s, Remove(d, k, s.clock, o), s1);
  }
}
