// When an operation is given up: in every run, whatever its steps, only after the server's answers to that
// very operation gave reason to.

module GivingUp {
  import opened SyncTypes
  import opened Outbox
  import opened Drain
  import opened SyncSystem

  /** The answer the device takes in this step refuses the operation, for now or for good. */
  predicate Refuses(s: System, step: Step, d: Id, o: Id, forGood: bool) {
    step.AckArrives? && step.d == d && d in s.devices && s.devices[d].phase.Pushing?
    && exists r :: r in Heard(s.devices[d].rows, s.devices[d].phase.ack).rejected && r.opId == o && r.failure.Retryable() == !forGood
  }

  /** How many answers of the run refuse the operation for now. */
  ghost function RefusedTimes(s: System, steps: seq<Step>, d: Id, o: Id): nat
    requires Runs(s, steps)
    decreases |steps|
  {
    if steps == [] then 0
    else (if Refuses(s, steps[0], d, o, false) then 1 else 0) + RefusedTimes(Do(s, steps[0]), steps[1..], d, o)
  }

  /** Whether some answer of the run refuses it for good. */
  ghost predicate RefusedForGood(s: System, steps: seq<Step>, d: Id, o: Id)
    requires Runs(s, steps)
    decreases |steps|
  {
    steps != [] && (Refuses(s, steps[0], d, o, true) || RefusedForGood(Do(s, steps[0]), steps[1..], d, o))
  }

  /** An item of this operation has used up no more attempts than that. */
  predicate TriedAtMost(item: Item, o: Id, times: nat) { item.opId == o ==> item.attempts <= times }

  ghost predicate DeviceTried(dev: Device, o: Id, times: nat) {
    && (forall k :: k in dev.queue ==> TriedAtMost(dev.queue[k], o, times))
    && (dev.phase.Pushing? ==> forall item :: item in dev.phase.items ==> TriedAtMost(item, o, times))
  }

  /** After `times` refusals for now, and one for good or none: no attempt is booked without a refusal, and
      the operation is given up only with reason. */
  ghost predicate Tried(s: System, d: Id, o: Id, times: nat, forGood: bool) {
    && (d in s.devices ==> DeviceTried(s.devices[d], o, times))
    && ((d, o) in s.past.failed ==> forGood || times >= MAX_ATTEMPTS)
  }

  lemma {:induction false} RejectionsCount(q: Queue, items: seq<Item>, rejected: seq<Rejection>, wake: Id -> Time, o: Id, times: nat)
    requires (forall k :: k in q ==> TriedAtMost(q[k], o, times)) && (forall item :: item in items ==> TriedAtMost(item, o, times))
    ensures var more := if exists r :: r in rejected && r.opId == o && r.failure.Retryable() then times + 1 else times;
      forall k :: k in HandleRejected(q, items, rejected, wake) ==> TriedAtMost(HandleRejected(q, items, rejected, wake)[k], o, more)
  {
    if rejected != [] {
      var n := |rejected| - 1;
      RejectionsCount(q, items, rejected[..n], wake, o, times);
      FindByOpFinds(items, rejected[n].opId);
      assert rejected == rejected[..n] + [rejected[n]];
    }
  }

  lemma {:induction false} AcceptedOnlyLeave(q: Queue, items: seq<Item>, accepted: seq<Id>)
    ensures forall k :: k in RemoveAccepted(q, items, accepted) ==> k in q && RemoveAccepted(q, items, accepted)[k] == q[k]
  {
    if accepted != [] {
      AcceptedOnlyLeave(q, items, accepted[..|accepted| - 1]);
    }
  }

  lemma {:induction false} ConflictsOnlyLeave(q: Queue, items: seq<Item>, conflicts: seq<Conflict>)
    ensures forall k :: k in RemoveConflicts(q, items, conflicts) ==> k in q && RemoveConflicts(q, items, conflicts)[k] == q[k]
  {
    if conflicts != [] {
      ConflictsOnlyLeave(q, items, conflicts[..|conflicts| - 1]);
    }
  }

  /** What an answer makes of the attempts. */
  lemma AckCounts(q: Queue, items: seq<Item>, ack: Ack, wake: Id -> Time, o: Id, times: nat)
    requires (forall k :: k in q ==> TriedAtMost(q[k], o, times)) && (forall item :: item in items ==> TriedAtMost(item, o, times))
    ensures var more := if exists r :: r in ack.rejected && r.opId == o && r.failure.Retryable() then times + 1 else times;
      forall k :: k in ApplyAck(q, items, ack, wake) ==> TriedAtMost(ApplyAck(q, items, ack, wake)[k], o, more)
  {
    var q1 := RemoveAccepted(q, items, ack.accepted);
    AcceptedOnlyLeave(q, items, ack.accepted);
    ConflictsOnlyLeave(q1, items, ack.conflicts);
    RejectionsCount(RemoveConflicts(q1, items, ack.conflicts), items, ack.rejected, wake, o, times);
  }

  /** What an answer gives up, it has reason to. */
  lemma GivenUpWithReason(items: seq<Item>, rejected: seq<Rejection>, o: Id, times: nat)
    requires o in FailedOps(items, rejected) && forall item :: item in items ==> TriedAtMost(item, o, times)
    ensures exists r :: r in rejected && r.opId == o && (!r.failure.Retryable() || times + 1 >= MAX_ATTEMPTS)
  {
    var r :| r in rejected && r.opId == o && FindByOp(items, r.opId).Some? && GivesUp(FindByOp(items, r.opId).value, r);
    FindByOpFinds(items, o);
  }

  lemma AckKeepsTried(s: System, d: Id, wake: Id -> Time, o: Id, times: nat, forGood: bool)
    requires Enabled(s, AckArrives(d, wake)) && Tried(s, d, o, times, forGood)
    ensures var step := AckArrives(d, wake);
      Tried(DoAckArrives(s, d, wake), d, o, times + (if Refuses(s, step, d, o, false) then 1 else 0), forGood || Refuses(s, step, d, o, true))
  {
    var dev := Hearing(s.devices[d]);
    AckCounts(dev.queue, dev.phase.items, dev.phase.ack, wake, o, times);
    if o in FailedOps(dev.phase.items, dev.phase.ack.rejected) {
      GivenUpWithReason(dev.phase.items, dev.phase.ack.rejected, o, times);
    }
  }

  /** A local change books no attempts. */
  lemma EnqueueBooksNone(q: Queue, inFlight: set<Id>, k: Key, operation: Operation, opId: Id, now: Time, o: Id, times: nat)
    requires forall j :: j in q ==> TriedAtMost(q[j], o, times)
    ensures var q1 := Enqueue(q, inFlight, k, operation, opId, now); forall j :: j in q1 ==> TriedAtMost(q1[j], o, times)
  {
    EnqueuedIsFresh(q, inFlight, k, operation, opId, now);
    var q1 := Enqueue(q, inFlight, k, operation, opId, now);
    forall j | j in q1 && j != k ensures j in q && q1[j] == q[j] {
      assert j in q1 - {k} && j in q - {k};
    }
  }

  /** A batch is made of items of the queue. */
  lemma StartPushKeepsTried(s: System, d: Id, order: seq<Key>, size: Mutation -> nat, o: Id, times: nat)
    requires Enabled(s, StartPush(d, order, size)) && DeviceTried(s.devices[d], o, times)
    ensures DeviceTried(DoStartPush(s, d, order, size).devices[d], o, times)
  {
    var dev := s.devices[d];
    var items := ItemsOf(dev.queue, order);
    BuildFacts(items, dev.rows, s.clock, size, EMPTY_BATCH);
    forall item | item in Build(items, dev.rows, s.clock, size).items ensures TriedAtMost(item, o, times) {
      assert item in items;
      var i :| 0 <= i < |items| && items[i] == item;
      assert order[i] in order;
    }
  }

  /** Steps that touch no queue and no batch. */
  lemma QuietStepKeepsTried(s: System, step: Step, d: Id, o: Id, times: nat, forGood: bool)
    requires Enabled(s, step) && Tried(s, d, o, times, forGood)
    requires !step.AckArrives? && !step.StartPush? && !step.Edit? && !step.Remove?
    ensures Tried(Do(s, step), d, o, times, forGood)
  {
  }

  lemma LocalStepKeepsTried(s: System, step: Step, d: Id, o: Id, times: nat, forGood: bool)
    requires Enabled(s, step) && Tried(s, d, o, times, forGood) && (step.StartPush? || step.Edit? || step.Remove?)
    ensures Tried(Do(s, step), d, o, times, forGood)
  {
    match step
    case StartPush(e, order, size) => if e == d { StartPushKeepsTried(s, d, order, size, o, times); }
    case Edit(e, k, _, at, opId) =>
      if e == d { EnqueueBooksNone(s.devices[d].queue, InFlight(s.devices[d].phase), k, Upsert, opId, at, o, times); }
    case Remove(e, k, at, opId) =>
      if e == d { EnqueueBooksNone(s.devices[d].queue, InFlight(s.devices[d].phase), k, Delete, opId, at, o, times); }
  }

  lemma StepKeepsTried(s: System, step: Step, d: Id, o: Id, times: nat, forGood: bool)
    requires Enabled(s, step) && Tried(s, d, o, times, forGood)
    ensures Tried(Do(s, step), d, o, times + (if Refuses(s, step, d, o, false) then 1 else 0), forGood || Refuses(s, step, d, o, true))
  {
    if step.AckArrives? {
      if step.d == d { AckKeepsTried(s, d, step.wake, o, times, forGood); }
    } else if step.StartPush? || step.Edit? || step.Remove? {
      LocalStepKeepsTried(s, step, d, o, times, forGood);
    } else {
      QuietStepKeepsTried(s, step, d, o, times, forGood);
    }
  }

  lemma {:induction false} RunKeepsTried(s: System, steps: seq<Step>, d: Id, o: Id, times: nat, forGood: bool)
    requires Runs(s, steps) && Tried(s, d, o, times, forGood)
    ensures Tried(Run(s, steps), d, o, times + RefusedTimes(s, steps, d, o), forGood || RefusedForGood(s, steps, d, o))
    decreases |steps|
  {
    if steps != [] {
      StepKeepsTried(s, steps[0], d, o, times, forGood);
      RunKeepsTried(Do(s, steps[0]), steps[1..], d, o, times + (if Refuses(s, steps[0], d, o, false) then 1 else 0),
                    forGood || Refuses(s, steps[0], d, o, true));
    }
  }

  /** In every run from a new account, whatever its steps: an operation is recorded as failed only if an
      answer refused it for good, or as many answers as there are attempts refused it for now; and an
      operation still queued has used up no more attempts than answers refused it. */
  lemma GivenUpOnlyIf(s: System, steps: seq<Step>, d: Id, o: Id)
    requires Start(s) && Runs(s, steps)
    ensures (d, o) in Run(s, steps).past.failed ==>
      RefusedForGood(s, steps, d, o) || RefusedTimes(s, steps, d, o) >= MAX_ATTEMPTS
    ensures forall k :: d in Run(s, steps).devices && k in Run(s, steps).devices[d].queue && Run(s, steps).devices[d].queue[k].opId == o ==>
      Run(s, steps).devices[d].queue[k].attempts <= RefusedTimes(s, steps, d, o)
  {
    RunKeepsTried(s, steps, d, o, 0, false);
  }
}
