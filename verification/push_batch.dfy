// A pushed batch on the server: order of application, the apply loop, and the
// acknowledgement it produces.

module PushBatch {
  import opened SyncTypes
  import opened ServerApply
  import opened Validation

  /** What can go wrong around one operation. */
  datatype Fault = NoFault | Unavailable | MediaFault(again: bool) | UnreportedCommit

  /** The server's surroundings while it handles one operation. */
  datatype Env = Env(now: Time, fault: Fault)

  datatype Verdict = Accepted(conflict: Option<Conflict>) | Refused(failure: Failure)

  const EMPTY_ACK := Ack([], [], [])

  function OnlyKind(ms: seq<Mutation>, kind: Operation): seq<Mutation> {
    if ms == [] then []
    else
      var n := |ms| - 1;
      OnlyKind(ms[..n], kind) + (if ms[n].operation == kind then [ms[n]] else [])
  }

  /** Upserts before deletes, each in the order they came. */
  function Ordered(ms: seq<Mutation>): seq<Mutation> {
    OnlyKind(ms, Upsert) + OnlyKind(ms, Delete)
  }

  lemma {:induction false} OnlyKindCounts(ms: seq<Mutation>, kind: Operation, m: Mutation)
    ensures multiset(OnlyKind(ms, kind))[m] == if m.operation == kind then multiset(ms)[m] else 0
  {
    if ms != [] {
      var n := |ms| - 1;
      OnlyKindCounts(ms[..n], kind, m);
      assert ms == ms[..n] + [ms[n]];
    }
  }

  lemma OnlyKindSplits(ms: seq<Mutation>)
    ensures multiset(OnlyKind(ms, Upsert) + OnlyKind(ms, Delete)) == multiset(ms)
  {
    forall m ensures multiset(OnlyKind(ms, Upsert) + OnlyKind(ms, Delete))[m] == multiset(ms)[m] {
      OnlyKindCounts(ms, Upsert, m);
      OnlyKindCounts(ms, Delete, m);
    }
  }

  lemma {:induction false} OnlyKindIsKind(ms: seq<Mutation>, kind: Operation)
    ensures forall m :: m in OnlyKind(ms, kind) ==> m.operation == kind
  {
    if ms != [] {
      OnlyKindIsKind(ms[..|ms| - 1], kind);
    }
  }

  /** Reordering loses and invents nothing, and no delete precedes an upsert. */
  lemma OrderedIsPermutation(ms: seq<Mutation>)
    ensures multiset(Ordered(ms)) == multiset(ms)
    ensures forall i, j :: 0 <= i < j < |Ordered(ms)| && Ordered(ms)[i].operation.Delete? ==> Ordered(ms)[j].operation.Delete?
  {
    OnlyKindSplits(ms);
    OnlyKindIsKind(ms, Upsert);
    OnlyKindIsKind(ms, Delete);
    var ups, dels := OnlyKind(ms, Upsert), OnlyKind(ms, Delete);
    forall i | 0 <= i < |ups| ensures Ordered(ms)[i].operation.Upsert? {
      assert ups[i] in ups;
    }
    forall i | |ups| <= i < |Ordered(ms)| ensures Ordered(ms)[i].operation.Delete? {
      assert Ordered(ms)[i] == dels[i - |ups|] && dels[i - |ups|] in dels;
    }
  }

  /** One turn of the apply loop. */
  ghost function ApplyOp(s: Server, user: Id, device: Id, m: Mutation, hard: bool, env: Env): (Server, Verdict) {
    if env.fault.Unavailable? then (s, Refused(ApplyFailed))
    else if (user, m.opId) in s.ops then (s, Accepted(None))
    else if env.fault.MediaFault? && m.operation.Upsert? && m.key.table.Cards? then
      (s, Refused(MediaRefused(env.fault.again)))
    else match ApplyMutation(s, user, device, m, env.now, hard)
      case Abort(failure) => (s, Refused(failure))
      case Commit(s1, conflict) =>
        (s1, if env.fault.UnreportedCommit? then Refused(ApplyFailed) else Accepted(conflict))
  }

  function Noted(ack: Ack, opId: Id, verdict: Verdict): Ack {
    match verdict
    case Refused(failure) => ack.(rejected := ack.rejected + [Rejection(opId, failure)])
    case Accepted(conflict) =>
      ack.(accepted := ack.accepted + [opId],
           conflicts := if conflict.Some? then ack.conflicts + [conflict.value] else ack.conflicts)
  }

  /** The apply loop over a whole ordered batch. */
  ghost function ApplyOrdered(s: Server, user: Id, device: Id, ms: seq<Mutation>, hard: bool, envs: seq<Env>): (Server, Ack)
    requires |ms| <= |envs|
  {
    if ms == [] then (s, EMPTY_ACK)
    else
      var n := |ms| - 1;
      var (s1, ack) := ApplyOrdered(s, user, device, ms[..n], hard, envs);
      var (s2, verdict) := ApplyOp(s1, user, device, ms[n], hard, envs[n]);
      (s2, Noted(ack, ms[n].opId, verdict))
  }

  predicate Names(ack: Ack, opId: Id) {
    opId in ack.accepted || opId in RejectedIds(ack.rejected)
  }

  lemma NotedNames(ack: Ack, opId: Id, verdict: Verdict)
    ensures multiset(Noted(ack, opId, verdict).accepted) + multiset(RejectedIds(Noted(ack, opId, verdict).rejected))
         == multiset(ack.accepted) + multiset(RejectedIds(ack.rejected)) + multiset{opId}
  {
    if verdict.Refused? {
      RejectedIdsAppend(ack.rejected, Rejection(opId, verdict.failure));
    }
  }

  /** The loop names every operation it is given, once each. */
  lemma {:induction false} LoopNamesEachOnce(
    s: Server, user: Id, device: Id, ms: seq<Mutation>, hard: bool, envs: seq<Env>)
    requires |ms| <= |envs|
    ensures var ack := ApplyOrdered(s, user, device, ms, hard, envs).1;
      multiset(ack.accepted) + multiset(RejectedIds(ack.rejected)) == multiset(OpIds(ms))
  {
    if ms != [] {
      var n := |ms| - 1;
      LoopNamesEachOnce(s, user, device, ms[..n], hard, envs);
      var (s1, ack) := ApplyOrdered(s, user, device, ms[..n], hard, envs);
      NotedNames(ack, ms[n].opId, ApplyOp(s1, user, device, ms[n], hard, envs[n]).1);
      assert ms == ms[..n] + [ms[n]];
      OpIdsAppend(ms[..n], ms[n]);
    } else {
      assert OpIds(ms) == [];
    }
  }

  lemma {:induction false} OpIdsCount(ms: seq<Mutation>, ids: multiset<Id>)
    requires ids == multiset(OpIds(OnlyKind(ms, Upsert))) + multiset(OpIds(OnlyKind(ms, Delete)))
    ensures ids == multiset(OpIds(ms))
  {
    if ms == [] {
      assert OpIds(ms) == [];
    } else {
      var n := |ms| - 1;
      var init, m := ms[..n], ms[n];
      var kind := m.operation;
      var other := if kind.Upsert? then Delete else Upsert;
      OpIdsCount(init, multiset(OpIds(OnlyKind(init, Upsert))) + multiset(OpIds(OnlyKind(init, Delete))));
      assert ms == init + [m];
      OpIdsAppend(init, m);
      MultisetAppend(OpIds(init), m.opId);
      assert OnlyKind(ms, kind) == OnlyKind(init, kind) + [m];
      OpIdsAppend(OnlyKind(init, kind), m);
      MultisetAppend(OpIds(OnlyKind(init, kind)), m.opId);
      assert OnlyKind(ms, other) == OnlyKind(init, other);
    }
  }

  lemma OrderedKeepsOpIds(ms: seq<Mutation>)
    ensures multiset(OpIds(Ordered(ms))) == multiset(OpIds(ms))
  {
    var ups, dels := OnlyKind(ms, Upsert), OnlyKind(ms, Delete);
    assert OpIds(ups + dels) == OpIds(ups) + OpIds(dels);
    OpIdsCount(ms, multiset(OpIds(ups)) + multiset(OpIds(dels)));
  }

  /** The batch as the server takes it in: clamped, validated, ordered. */
  function Admitted(ms: seq<Mutation>, now: Time, check: Check): seq<Mutation> {
    Ordered(ValidOf(ClampAll(ms, now), check))
  }

  function ClampAll(ms: seq<Mutation>, now: Time): seq<Mutation> {
    seq(|ms|, i requires 0 <= i < |ms| => ClampMutationTimes(ms[i], now))
  }

  /** The whole of a push: admission, then the loop. */
  ghost function ApplyPush(s: Server, user: Id, device: Id, ms: seq<Mutation>, now: Time, hard: bool,
                           check: Check, envs: seq<Env>): (Server, Ack)
    requires |Admitted(ms, now, check)| <= |envs|
  {
    var (s1, ack) := ApplyOrdered(s, user, device, Admitted(ms, now, check), hard, envs);
    (s1, ack.(rejected := MalformedOf(ClampAll(ms, now), check) + ack.rejected))
  }

  /** Accepted and rejected together name exactly the operations of the batch, once per occurrence,
      whatever faults the server meets on the way. */
  lemma AckNamesBatch(s: Server, user: Id, device: Id, ms: seq<Mutation>, now: Time, hard: bool,
                      check: Check, envs: seq<Env>)
    requires |Admitted(ms, now, check)| <= |envs|
    ensures var ack := ApplyPush(s, user, device, ms, now, hard, check, envs).1;
      multiset(ack.accepted) + multiset(RejectedIds(ack.rejected)) == multiset(OpIds(ms))
  {
    var clamped := ClampAll(ms, now);
    assert OpIds(clamped) == OpIds(ms);
    var valid := ValidOf(clamped, check);
    var malformed := MalformedOf(clamped, check);
    PartitionIsExact(clamped, check);
    OrderedKeepsOpIds(valid);
    LoopNamesEachOnce(s, user, device, Ordered(valid), hard, envs);
    var ack := ApplyOrdered(s, user, device, Ordered(valid), hard, envs).1;
    assert RejectedIds(malformed + ack.rejected) == RejectedIds(malformed) + RejectedIds(ack.rejected);
  }

  predicate Distinct(ids: seq<Id>) {
    forall i, j :: 0 <= i < j < |ids| ==> ids[i] != ids[j]
  }

  lemma {:induction false} DistinctCountsOne(ids: seq<Id>, x: Id)
    requires Distinct(ids)
    ensures multiset(ids)[x] <= 1
  {
    if ids != [] {
      var n := |ids| - 1;
      assert ids == ids[..n] + [ids[n]];
      DistinctCountsOne(ids[..n], x);
      if ids[n] == x { assert x !in ids[..n]; }
    }
  }

  /** For distinct op ids, accepted and rejected split the batch: every op on exactly one side. */
  lemma AckPartition(s: Server, user: Id, device: Id, ms: seq<Mutation>, now: Time, hard: bool,
                     check: Check, envs: seq<Env>, opId: Id)
    requires |Admitted(ms, now, check)| <= |envs| && Distinct(OpIds(ms))
    ensures var ack := ApplyPush(s, user, device, ms, now, hard, check, envs).1;
      && (opId in OpIds(ms) <==> Names(ack, opId))
      && !(opId in ack.accepted && opId in RejectedIds(ack.rejected))
  {
    var ack := ApplyPush(s, user, device, ms, now, hard, check, envs).1;
    AckNamesBatch(s, user, device, ms, now, hard, check, envs);
    DistinctCountsOne(OpIds(ms), opId);
    var a, r := multiset(ack.accepted), multiset(RejectedIds(ack.rejected));
    assert a[opId] + r[opId] == multiset(OpIds(ms))[opId];
  }
}
