// The operations of an admitted batch are the operations sent, clamped at most.

module AdmittedBatch {
  import opened SyncTypes
  import opened ServerApply
  import opened Validation
  import opened PushBatch
  import opened Outbox

  lemma {:induction false} OnlyKindMembers(ms: seq<Mutation>, kind: Operation)
    ensures forall m :: m in OnlyKind(ms, kind) <==> m in ms && m.operation == kind
  {
    if ms != [] {
      var n := |ms| - 1;
      OnlyKindMembers(ms[..n], kind);
      assert ms == ms[..n] + [ms[n]];
    }
  }

  /** Operations within the skew are admitted exactly as sent, if the validator passes them. */
  lemma AdmittedMembers(ms: seq<Mutation>, now: Time, check: Check)
    requires forall m :: m in ms ==> WithinSkew(m, now)
    ensures forall m :: m in Admitted(ms, now, check) <==> m in ms && check(m).None?
  {
    var clamped := ClampAll(ms, now);
    forall i | 0 <= i < |ms| ensures clamped[i] == ms[i] {
      ClampExact(ms[i], now);
    }
    assert clamped == ms;
    PartitionIsFaithful(ms, check);
    OnlyKindMembers(ValidOf(ms, check), Upsert);
    OnlyKindMembers(ValidOf(ms, check), Delete);
  }

  // ----- order -----

  /** `picked` is made of the elements of `all` at these places, in their order. */
  predicate Picks(at: seq<nat>, picked: seq<Mutation>, all: seq<Mutation>) {
    && |at| == |picked| && (forall i :: 0 <= i < |at| ==> at[i] < |all| && picked[i] == all[at[i]])
    && (forall i, j :: 0 <= i < j < |at| ==> at[i] < at[j])
  }

  lemma {:induction false} OnlyKindPicks(ms: seq<Mutation>, kind: Operation) returns (at: seq<nat>)
    ensures Picks(at, OnlyKind(ms, kind), ms)
    ensures forall j: nat :: j < |ms| ==> (j in at <==> ms[j].operation == kind)
  {
    if ms == [] {
      at := [];
    } else {
      var n := |ms| - 1;
      at := OnlyKindPicks(ms[..n], kind);
      if ms[n].operation == kind { at := at + [n]; }
    }
  }

  /** A longer list picks the same, or one more at its end. */
  lemma PicksGrows(at: seq<nat>, picked: seq<Mutation>, ms: seq<Mutation>)
    requires ms != [] && Picks(at, picked, ms[..|ms| - 1])
    ensures Picks(at, picked, ms) && Picks(at + [|ms| - 1], picked + [ms[|ms| - 1]], ms)
  {
  }

  lemma {:induction false} ValidOfPicks(ms: seq<Mutation>, check: Check) returns (at: seq<nat>)
    ensures Picks(at, ValidOf(ms, check), ms)
    ensures forall j: nat :: j < |ms| ==> (j in at <==> check(ms[j]).None?)
  {
    if ms == [] {
      at := [];
    } else {
      var n := |ms| - 1;
      var init := ms[..n];
      at := ValidOfPicks(init, check);
      PicksGrows(at, ValidOf(init, check), ms);
      assert forall j: nat :: j < n ==> init[j] == ms[j];
      assert n !in at;
      if check(ms[n]).None? {
        assert ValidOf(ms, check) == ValidOf(init, check) + [ms[n]];
        at := at + [n];
      } else {
        assert ValidOf(ms, check) == ValidOf(init, check);
      }
    }
  }

  /** The order in which a batch is applied: upserts before deletes, each in the order they were sent. */
  predicate GoesBefore(ms: seq<Mutation>, i: nat, j: nat)
    requires i < |ms| && j < |ms|
  {
    (ms[i].operation.Upsert? && ms[j].operation.Delete?) || (ms[i].operation == ms[j].operation && i < j)
  }

  /** Places in a batch, in the order of application, and what stands there as the server takes it in. */
  ghost predicate InOrder(at: seq<nat>, admitted: seq<Mutation>, ms: seq<Mutation>, now: Time) {
    && |at| == |admitted| && (forall i :: 0 <= i < |at| ==> at[i] < |ms| && admitted[i] == ClampMutationTimes(ms[at[i]], now))
    && (forall i, j :: 0 <= i < j < |at| ==> GoesBefore(ms, at[i], at[j]))
  }

  function Places(outer: seq<nat>, inner: seq<nat>): (r: seq<nat>)
    requires forall i :: 0 <= i < |inner| ==> inner[i] < |outer|
    ensures |r| == |inner| && forall i :: 0 <= i < |r| ==> r[i] == outer[inner[i]]
  {
    seq(|inner|, i requires 0 <= i < |inner| => outer[inner[i]])
  }

  lemma PicksOfPicks(outer: seq<nat>, inner: seq<nat>, picked: seq<Mutation>, mid: seq<Mutation>, all: seq<Mutation>)
    requires Picks(outer, mid, all) && Picks(inner, picked, mid)
    ensures (forall i :: 0 <= i < |inner| ==> inner[i] < |outer|) && Picks(Places(outer, inner), picked, all)
  {
  }

  /** Those of the valid operations that are of one kind, as places in the whole batch. */
  lemma KindPicks(clamped: seq<Mutation>, check: Check, kind: Operation) returns (at: seq<nat>)
    ensures Picks(at, OnlyKind(ValidOf(clamped, check), kind), clamped)
    ensures forall j: nat :: j < |clamped| ==> (j in at <==> check(clamped[j]).None? && clamped[j].operation == kind)
  {
    var valid := ValidOf(clamped, check);
    var outer := ValidOfPicks(clamped, check);
    var inner := OnlyKindPicks(valid, kind);
    PicksOfPicks(outer, inner, OnlyKind(valid, kind), valid, clamped);
    at := Places(outer, inner);
    forall j: nat | j < |clamped| ensures j in at <==> j in outer && clamped[j].operation == kind {
      if j in outer && clamped[j].operation == kind {
        var i :| 0 <= i < |outer| && outer[i] == j;
        assert i in inner;
        var h :| 0 <= h < |inner| && inner[h] == i;
        assert at[h] == j;
      }
      if j in at {
        var h :| 0 <= h < |at| && at[h] == j;
        assert inner[h] in inner && outer[inner[h]] in outer;
      }
    }
  }

  /** Upserts, then deletes. */
  lemma HalvesInOrder(ups: seq<nat>, dels: seq<nat>, upserts: seq<Mutation>, deletes: seq<Mutation>, ms: seq<Mutation>, now: Time)
    requires Picks(ups, upserts, ClampAll(ms, now)) && Picks(dels, deletes, ClampAll(ms, now))
    requires forall j: nat :: j < |ms| && j in ups ==> ms[j].operation.Upsert?
    requires forall j: nat :: j < |ms| && j in dels ==> ms[j].operation.Delete?
    ensures InOrder(ups + dels, upserts + deletes, ms, now)
  {
    var at := ups + dels;
    forall i, j | 0 <= i < j < |at| ensures GoesBefore(ms, at[i], at[j]) {
      assert at[i] in if i < |ups| then ups else dels;
      assert at[j] in if j < |ups| then ups else dels;
    }
  }

  /** A batch is applied in that order, all and only the operations that pass the validator once clamped. */
  lemma AdmittedInOrder(ms: seq<Mutation>, now: Time, check: Check) returns (at: seq<nat>)
    ensures InOrder(at, Admitted(ms, now, check), ms, now)
    ensures forall j: nat :: j < |ms| ==> (j in at <==> check(ClampMutationTimes(ms[j], now)).None?)
  {
    var clamped := ClampAll(ms, now);
    var valid := ValidOf(clamped, check);
    var ups := KindPicks(clamped, check, Upsert);
    var dels := KindPicks(clamped, check, Delete);
    HalvesInOrder(ups, dels, OnlyKind(valid, Upsert), OnlyKind(valid, Delete), ms, now);
    at := ups + dels;
    forall j: nat | j < |ms| ensures j in at <==> check(ClampMutationTimes(ms[j], now)).None? {
      assert clamped[j] == ClampMutationTimes(ms[j], now);
      assert j in at <==> j in ups || j in dels;
    }
  }

  // ----- storable rows -----

  /** The local rows hold what the server can store, and queued deletes carry dates. */
  ghost predicate AllStorable(b: Batch, rows: map<Key, Local>, parses: string -> bool) {
    && (forall k :: k in rows ==> rows[k].body.TopicBody? == k.table.Topics?)
    && (forall k :: k in rows ==> StorableBody(rows[k].body, parses) && IsDateTime(rows[k].updatedAt))
    && (forall item :: item in b.items ==> IsDateTime(item.createdAt))
  }

  lemma CarriedIsStorable(b: Batch, rows: map<Key, Local>, parses: string -> bool, i: nat)
    requires Carries(b, rows) && AllStorable(b, rows, parses) && i < |b.mutations|
    ensures Storable(b.mutations[i], parses)
  {
    assert b.items[i] in b.items;
    assert MutationFor(b.items[i], rows) == Some(b.mutations[i]);
  }

  lemma ClampedIsStorable(m: Mutation, now: Time, parses: string -> bool)
    requires Storable(m, parses) && now >= 0
    ensures Storable(ClampMutationTimes(m, now), parses)
  {
  }

  lemma {:induction false} AllPass(ms: seq<Mutation>, check: Check)
    requires forall i :: 0 <= i < |ms| ==> check(ms[i]).None?
    ensures ValidOf(ms, check) == ms && MalformedOf(ms, check) == []
  {
    if ms != [] {
      AllPass(ms[..|ms| - 1], check);
    }
  }

  /** A batch of storable operations is admitted in full, clamped at most. */
  lemma StorableAdmitted(ms: seq<Mutation>, now: Time, parses: string -> bool)
    requires now >= 0 && forall i :: 0 <= i < |ms| ==> Storable(ms[i], parses)
    ensures MalformedOf(ClampAll(ms, now), Validator(parses)) == []
    ensures multiset(Admitted(ms, now, Validator(parses))) == multiset(ClampAll(ms, now))
  {
    var clamped := ClampAll(ms, now);
    forall i | 0 <= i < |clamped| ensures Validator(parses)(clamped[i]).None? {
      ClampedIsStorable(ms[i], now, parses);
      ValidatorPassesIff(parses, clamped[i]);
    }
    AllPass(clamped, Validator(parses));
    OrderedIsPermutation(clamped);
  }

  lemma NothingToClamp(ms: seq<Mutation>, now: Time)
    requires forall m :: m in ms ==> WithinSkew(m, now)
    ensures ClampAll(ms, now) == ms
  {
    forall i | 0 <= i < |ms| ensures ClampAll(ms, now)[i] == ms[i] {
      ClampExact(ms[i], now);
    }
  }

  lemma BatchAdmitted(b: Batch, rows: map<Key, Local>, now: Time, parses: string -> bool)
    requires Carries(b, rows) && AllStorable(b, rows, parses) && now >= 0
    ensures MalformedOf(ClampAll(b.mutations, now), Validator(parses)) == []
    ensures multiset(Admitted(b.mutations, now, Validator(parses))) == multiset(ClampAll(b.mutations, now))
    ensures (forall m :: m in b.mutations ==> WithinSkew(m, now)) ==> ClampAll(b.mutations, now) == b.mutations
  {
    forall i | 0 <= i < |b.mutations| ensures Storable(b.mutations[i], parses) {
      CarriedIsStorable(b, rows, parses, i);
    }
    StorableAdmitted(b.mutations, now, parses);
    if forall m :: m in b.mutations ==> WithinSkew(m, now) {
      NothingToClamp(b.mutations, now);
    }
  }

  /** So is a batch built from rows the server can store, and nothing of it is refused as malformed. */
  lemma BuiltBatchAdmitted(items: seq<Item>, rows: map<Key, Local>, built: Time, size: Mutation -> nat, now: Time, parses: string -> bool)
    requires AllStorable(Build(items, rows, built, size), rows, parses) && now >= 0
    ensures var ms := Build(items, rows, built, size).mutations;
      && MalformedOf(ClampAll(ms, now), Validator(parses)) == []
      && multiset(Admitted(ms, now, Validator(parses))) == multiset(ClampAll(ms, now))
      && ((forall m :: m in ms ==> WithinSkew(m, now)) ==> ClampAll(ms, now) == ms)
  {
    var b := Build(items, rows, built, size);
    BuildFacts(items, rows, built, size, EMPTY_BATCH);
    BatchAdmitted(b, rows, now, parses);
  }
}
