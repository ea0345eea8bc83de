// Admission of a pushed batch: clamping of future times, per-operation validation,
// and the split into appliable operations and permanent rejections.

module Validation {
  import opened SyncTypes
  import opened ServerApply

  const MAX_FUTURE_SKEW_MS: int := 5 * 60 * 1000
  const MAX_TIME_MS: int := 8_640_000_000_000_000
  const MAX_SAFE_INTEGER: int := 9_007_199_254_740_991
  const INT32_MAX: int := 2_147_483_647
  const INT32_MIN: int := -2_147_483_648

  function ClampFutureTime(ms: Time, now: Time): Time {
    Min(ms, now + MAX_FUTURE_SKEW_MS)
  }

  function ClampMutationTimes(m: Mutation, now: Time): Mutation {
    m.(updatedAt := ClampFutureTime(m.updatedAt, now),
       payload :=
         if m.payload.None? then None
         else
           var r := m.payload.value;
           Some(r.(updatedAt := ClampFutureTime(r.updatedAt, now),
                   deletedAt := if r.deletedAt.None? then None else Some(ClampFutureTime(r.deletedAt.value, now)))))
  }

  /** None of the mutation's times lies further ahead of the server clock than the skew. */
  predicate WithinSkew(m: Mutation, now: Time) {
    && m.updatedAt <= now + MAX_FUTURE_SKEW_MS
    && (m.payload.Some? ==>
          m.payload.value.updatedAt <= now + MAX_FUTURE_SKEW_MS
          && (m.payload.value.deletedAt.Some? ==> m.payload.value.deletedAt.value <= now + MAX_FUTURE_SKEW_MS))
  }

  /** The latest time that is neither after `at` nor after the limit. */
  predicate IsLatestWithin(t: Time, at: Time, limit: Time) { t <= at && t <= limit && (t == at || t == limit) }

  /** The same mutation, but for times beyond the limit, which are set to it. */
  predicate IsClampOf(c: Mutation, m: Mutation, limit: Time) {
    && c.opId == m.opId && c.key == m.key && c.operation == m.operation && IsLatestWithin(c.updatedAt, m.updatedAt, limit)
    && c.payload.Some? == m.payload.Some?
    && (m.payload.Some? ==>
          var r, q := m.payload.value, c.payload.value;
          && q.id == r.id && q.body == r.body && IsLatestWithin(q.updatedAt, r.updatedAt, limit)
          && q.deletedAt.Some? == r.deletedAt.Some?
          && (r.deletedAt.Some? ==> IsLatestWithin(q.deletedAt.value, r.deletedAt.value, limit)))
  }

  /** Clamping leaves a mutation alone exactly when it is within the skew, its result always is,
      and no mutation ever gains time. */
  lemma ClampExact(m: Mutation, now: Time)
    ensures ClampMutationTimes(m, now) == m <==> WithinSkew(m, now)
    ensures WithinSkew(ClampMutationTimes(m, now), now)
    ensures ClampMutationTimes(ClampMutationTimes(m, now), now) == ClampMutationTimes(m, now)
    ensures PayloadOf(m).Some? ==> PayloadOf(ClampMutationTimes(m, now)).Some?
    ensures Addressed(m) ==> Addressed(ClampMutationTimes(m, now))
    ensures IsClampOf(ClampMutationTimes(m, now), m, now + MAX_FUTURE_SKEW_MS)
  {
    if m.payload.Some? {
      var r := m.payload.value;
      assert m.payload == Some(r);
      if r.deletedAt.Some? { assert r.deletedAt == Some(r.deletedAt.value); }
    }
  }

  predicate IsValidDate(ms: int) { -MAX_TIME_MS <= ms <= MAX_TIME_MS }

  predicate IsSafe(n: int) { -MAX_SAFE_INTEGER <= n <= MAX_SAFE_INTEGER }

  predicate Contains(text: string, part: string)
    decreases |text|
  {
    part <= text || (text != [] && Contains(text[1..], part))
  }

  /** A raw NUL, or its six-character JSON escape. */
  predicate HasNul(text: string) {
    Contains(text, "\0") || Contains(text, ['\\', 'u', '0', '0', '0', '0'])
  }

  function TimeProblem(what: string, ms: Option<int>): Option<string> {
    if ms.Some? && !IsValidDate(ms.value) then Some(what + " is not a valid time") else None
  }

  function OrElse(first: Option<string>, second: Option<string>): Option<string> {
    if first.Some? then first else second
  }

  function RecordProblem(r: Record, parses: string -> bool): Option<string> {
    match r.body
    case TopicBody(title, pivot, week, next, _) =>
      if HasNul(title) then Some("Topic title contains a NUL character")
      else if !parses(week) || HasNul(week) then Some("Topic weekJson is not storable JSON")
      else if !IsSafe(pivot) || !IsSafe(next) then Some("Topic pivot and nextUpdateDate must be whole numbers")
      else OrElse(TimeProblem("Topic updatedAt", Some(r.updatedAt)), TimeProblem("Topic deletedAt", r.deletedAt))
    case CardBody(_, level, data, reviewDate) =>
      if !parses(data) || HasNul(data) then Some("Card dataJson is not storable JSON")
      else if level < INT32_MIN || level > INT32_MAX then Some("Card level must be a 32-bit integer")
      else if reviewDate.Some? && !IsSafe(reviewDate.value) then Some("Card reviewDate must be a whole number")
      else OrElse(TimeProblem("Card updatedAt", Some(r.updatedAt)), TimeProblem("Card deletedAt", r.deletedAt))
  }

  function UpsertProblem(m: Mutation, parses: string -> bool): Option<string> {
    var payload := PayloadOf(m);
    if payload.None? then
      Some(if m.key.table.Topics? then "Topic upsert missing payload" else "Card upsert missing payload")
    else if payload.value.id != m.key.id then
      Some(if m.key.table.Topics? then "Topic payload id does not match recordId"
           else "Card payload id does not match recordId")
    else RecordProblem(payload.value, parses)
  }

  /** The first reason a mutation can never be applied. */
  function MutationProblem(m: Mutation, parses: string -> bool): (r: Option<string>)
    ensures r.None? ==> Addressed(m)
    ensures r.None? ==> IsValidDate(m.updatedAt)
  {
    OrElse(TimeProblem("updatedAt", Some(m.updatedAt)),
           if m.operation.Upsert? then UpsertProblem(m, parses) else None)
  }

  /** A validator: the first problem of a mutation, if any. */
  type Check = Mutation -> Option<string>

  /** The server's validator, given what it can parse as JSON. */
  function Validator(parses: string -> bool): Check {
    m => MutationProblem(m, parses)
  }

  /** What the rest of the server relies on: an accepted upsert carries its own record. */
  ghost predicate Sound(check: Check) {
    forall m :: check(m).None? ==> Addressed(m)
  }

  lemma ValidatorSound(parses: string -> bool)
    ensures Sound(Validator(parses))
  {
  }

  // ----- what the database can store -----

  /** The text occurs somewhere in the other. */
  ghost predicate OccursIn(part: string, text: string) {
    exists i :: 0 <= i <= |text| && part <= text[i..]
  }

  lemma {:induction false} ContainsIff(text: string, part: string)
    ensures Contains(text, part) <==> OccursIn(part, text)
    decreases |text|
  {
    if text != [] {
      ContainsIff(text[1..], part);
      if OccursIn(part, text) {
        var i :| 0 <= i <= |text| && part <= text[i..];
        if i > 0 { assert text[1..][i - 1..] == text[i..]; }
      }
      if OccursIn(part, text[1..]) {
        var i :| 0 <= i <= |text[1..]| && part <= text[1..][i..];
        assert text[i + 1..] == text[1..][i..];
      }
    }
    if part <= text { assert text[0..] == text; }
  }

  /** No NUL character, and no JSON escape of one. */
  ghost predicate NulFree(text: string) {
    '\0' !in text && !OccursIn(['\\', 'u', '0', '0', '0', '0'], text)
  }

  lemma NulFreeIff(text: string)
    ensures HasNul(text) <==> !NulFree(text)
  {
    ContainsIff(text, "\0");
    ContainsIff(text, ['\\', 'u', '0', '0', '0', '0']);
    if '\0' in text {
      var i :| 0 <= i < |text| && text[i] == '\0';
      assert "\0" <= text[i..];
    }
    if OccursIn("\0", text) {
      var i :| 0 <= i <= |text| && "\0" <= text[i..];
      assert text[i] == '\0';
    }
  }

  /** A hundred million days on either side of the epoch. */
  predicate IsDateTime(ms: int) { -100_000_000 * 86_400_000 <= ms <= 100_000_000 * 86_400_000 }

  /** A whole number a double holds exactly, with all smaller ones. */
  predicate IsExact(n: int) { -0x20_0000_0000_0000 < n < 0x20_0000_0000_0000 }

  /** The columns can hold the body: text parses as JSON where it must and has no NUL, numbers are in range. */
  ghost predicate StorableBody(body: Body, parses: string -> bool) {
    match body
    case TopicBody(title, pivot, week, next, _) => NulFree(title) && parses(week) && NulFree(week) && IsExact(pivot) && IsExact(next)
    case CardBody(_, level, data, reviewDate) =>
      parses(data) && NulFree(data) && -0x8000_0000 <= level < 0x8000_0000 && (reviewDate.Some? ==> IsExact(reviewDate.value))
  }

  /** The operation can be stored: its times are dates, and an upsert carries the record it names, of its
      own table, in a form the columns can hold. */
  ghost predicate Storable(m: Mutation, parses: string -> bool) {
    IsDateTime(m.updatedAt)
    && (m.operation.Upsert? ==>
          && m.payload.Some? && m.payload.value.id == m.key.id && m.payload.value.body.TopicBody? == m.key.table.Topics?
          && StorableBody(m.payload.value.body, parses) && IsDateTime(m.payload.value.updatedAt)
          && (m.payload.value.deletedAt.Some? ==> IsDateTime(m.payload.value.deletedAt.value)))
  }

  /** The validator passes exactly what can be stored. */
  lemma ValidatorPassesIff(parses: string -> bool, m: Mutation)
    ensures Validator(parses)(m).None? <==> Storable(m, parses)
  {
    if m.payload.Some? {
      match m.payload.value.body
      case TopicBody(title, _, week, _, _) =>
        NulFreeIff(title);
        NulFreeIff(week);
      case CardBody(_, _, data, _) =>
        NulFreeIff(data);
    }
  }

  function OpIds(ms: seq<Mutation>): (ids: seq<Id>)
    ensures |ids| == |ms|
    ensures forall i :: 0 <= i < |ids| ==> ids[i] == ms[i].opId
  {
    seq(|ms|, i requires 0 <= i < |ms| => ms[i].opId)
  }

  lemma OpIdsAppend(ms: seq<Mutation>, m: Mutation)
    ensures OpIds(ms + [m]) == OpIds(ms) + [m.opId]
  {
  }

  lemma RejectedIdsAppend(rejected: seq<Rejection>, r: Rejection)
    ensures RejectedIds(rejected + [r]) == RejectedIds(rejected) + [r.opId]
  {
  }

  function ValidOf(ms: seq<Mutation>, check: Check): seq<Mutation> {
    if ms == [] then []
    else
      var n := |ms| - 1;
      ValidOf(ms[..n], check) + (if check(ms[n]).None? then [ms[n]] else [])
  }

  function MalformedOf(ms: seq<Mutation>, check: Check): seq<Rejection> {
    if ms == [] then []
    else
      var n := |ms| - 1;
      MalformedOf(ms[..n], check)
      + (if check(ms[n]).None? then [] else [Rejection(ms[n].opId, Malformed(check(ms[n]).value))])
  }

  /** Splits a batch into appliable mutations and permanent rejections. */
  method PartitionMalformed(mutations: seq<Mutation>, check: Check)
    returns (valid: seq<Mutation>, rejected: seq<Rejection>)
    ensures valid == ValidOf(mutations, check) && rejected == MalformedOf(mutations, check)
  {
    valid, rejected := [], [];
    for i := 0 to |mutations|
      invariant valid == ValidOf(mutations[..i], check) && rejected == MalformedOf(mutations[..i], check)
    {
      assert mutations[..i + 1][..i] == mutations[..i];
      var problem := check(mutations[i]);
      if problem.None? {
        valid := valid + [mutations[i]];
      } else {
        rejected := rejected + [Rejection(mutations[i].opId, Malformed(problem.value))];
      }
    }
    assert mutations[..|mutations|] == mutations;
  }

  lemma MultisetAppend<T>(xs: seq<T>, x: T)
    ensures multiset(xs + [x]) == multiset(xs) + multiset{x}
  {
  }

  lemma MultisetSplitGrows<T>(a: multiset<T>, b: multiset<T>, c: multiset<T>, x: T)
    requires a + b == c
    ensures (a + multiset{x}) + b == c + multiset{x}
    ensures a + (b + multiset{x}) == c + multiset{x}
  {
  }

  /** The valid and the rejected operations are together exactly the batch. */
  lemma {:induction false} PartitionIsExact(ms: seq<Mutation>, check: Check)
    ensures multiset(OpIds(ValidOf(ms, check))) + multiset(RejectedIds(MalformedOf(ms, check))) == multiset(OpIds(ms))
  {
    if ms == [] {
      assert OpIds(ms) == [];
    } else {
      var n := |ms| - 1;
      var init, m := ms[..n], ms[n];
      PartitionIsExact(init, check);
      assert ms == init + [m];
      OpIdsAppend(init, m);
      MultisetAppend(OpIds(init), m.opId);
      var v, r := ValidOf(init, check), MalformedOf(init, check);
      MultisetSplitGrows(multiset(OpIds(v)), multiset(RejectedIds(r)), multiset(OpIds(init)), m.opId);
      if check(m).None? {
        assert ValidOf(ms, check) == v + [m] && MalformedOf(ms, check) == r;
        OpIdsAppend(v, m);
        MultisetAppend(OpIds(v), m.opId);
      } else {
        var last := Rejection(m.opId, Malformed(check(m).value));
        assert ValidOf(ms, check) == v && MalformedOf(ms, check) == r + [last];
        RejectedIdsAppend(r, last);
        MultisetAppend(RejectedIds(r), m.opId);
      }
    }
  }

  /** Only what the validator passes is applied; every other operation, and no other, is refused for good
      with the validator's problem. */
  lemma {:induction false} PartitionIsFaithful(ms: seq<Mutation>, check: Check)
    ensures forall m :: m in ValidOf(ms, check) <==> m in ms && check(m).None?
    ensures forall r :: r in MalformedOf(ms, check) ==>
      !r.failure.Retryable() && exists m :: m in ms && r.opId == m.opId && check(m).Some? && r.failure == Malformed(check(m).value)
    ensures forall m :: m in ms && check(m).Some? ==> Rejection(m.opId, Malformed(check(m).value)) in MalformedOf(ms, check)
  {
    if ms != [] {
      var n := |ms| - 1;
      PartitionIsFaithful(ms[..n], check);
      assert ms == ms[..n] + [ms[n]];
    }
  }
}
