// Whatever order the writes to one stored record arrive in, the latest one decides.

module OrderIndependence {
  import opened SyncTypes
  import opened LastWriteWins
  import opened ServerApply
  import opened Titles
  import opened Validation

  /** A mutation together with the device that pushes it. */
  datatype Sent = Sent(device: Id, m: Mutation)

  /** The time by which last-write-wins judges a mutation. */
  function TimeOf(m: Mutation): Time {
    if m.operation.Upsert? && PayloadOf(m).Some? then m.payload.value.updatedAt else m.updatedAt
  }

  /** What a stored record shows: contents, time and tombstone mark, but not its sequence. */
  datatype Content = Content(body: Body, updatedAt: Time, deletedAt: Option<Time>)

  function ContentOf(row: Row): Content {
    Content(row.body, row.updatedAt, row.deletedAt)
  }

  /** The record as a winning mutation leaves it: an upsert replaces it, a delete marks it. */
  function Outcome(c: Content, m: Mutation): Content {
    if m.operation.Upsert? && PayloadOf(m).Some? then Content(StoredBody(m.payload.value.body), TimeOf(m), None)
    else c.(updatedAt := TimeOf(m), deletedAt := Some(TimeOf(m)))
  }

  /** Mutations of the stored record `k` that nothing but last-write-wins can stop: the upserts find
      their topic, respectively carry titles no other live topic of the user has. */
  ghost predicate Unobstructed(s: Server, user: Id, k: Key, sent: Sent) {
    var m := sent.m;
    && sent.device != "" && m.key == k && Addressed(m)
    && (m.operation.Delete? ==> m.updatedAt != 0)
    && (m.operation.Upsert? && k.table.Cards? ==>
          var t := Key(Topics, m.payload.value.body.topicId); t in s.rows && s.rows[t].owner == user)
    && (m.operation.Upsert? && k.table.Topics? ==>
          forall j :: !Clashes(s.rows, user, k.id, m.payload.value.body.title, j))
  }

  ghost predicate Stored(s: Server, user: Id, k: Key) {
    user in s.seqs && k in s.rows && s.rows[k].owner == user && BodiesFit(s.rows) && UniqueTitles(s.rows)
  }

  /** One soft apply to a stored record: the incoming write replaces it unless it is older. */
  lemma ApplyToStored(s: Server, user: Id, k: Key, sent: Sent, now: Time)
    requires Stored(s, user, k) && Unobstructed(s, user, k, sent)
    ensures var tx := ApplyMutation(s, user, sent.device, sent.m, now, false);
      && tx.Commit? && Stored(tx.server, user, k)
      && ContentOf(tx.server.rows[k])
         == (if TimeOf(sent.m) >= s.rows[k].updatedAt then Outcome(ContentOf(s.rows[k]), sent.m) else ContentOf(s.rows[k]))
      && tx.server.rows.Keys == s.rows.Keys
      && forall j :: j in s.rows && j != k ==> tx.server.rows[j] == s.rows[j]
  {
    var m := sent.m;
    if m.operation.Delete? {
      var s1 := ApplyDelete(s, user, m, now, false).server;
      TitlesOnlyLeave(s.rows, s1.rows);
    } else {
      var r := m.payload.value;
      ServerTieGoesToIncoming(s.rows[k].updatedAt, r.updatedAt, sent.device, r.id);
      if k.table.Cards? {
        var s1 := ApplyCardUpsert(s, user, sent.device, m).server;
        TitlesOnlyLeave(s.rows, s1.rows);
      } else if TimeOf(m) >= s.rows[k].updatedAt {
        assert FindClash(s.rows, user, r.id, r.body.title).None?;
        forall j | j != k ensures !LiveTitle(s.rows, user, r.body.title, j) {
          assert !Clashes(s.rows, user, k.id, r.body.title, j);
        }
        PutTopicUniqueIff(s, user, k, Retitled(UpsertRow(s, user, k, r), r.body.title));
      }
    }
  }

  /** The writes applied one after the other, soft deletes only. */
  ghost function ApplyAll(s: Server, user: Id, sents: seq<Sent>, now: Time): Server
    decreases |sents|
  {
    if sents == [] then s
    else
      var tx := ApplyMutation(s, user, sents[0].device, sents[0].m, now, false);
      ApplyAll(if tx.Commit? then tx.server else s, user, sents[1..], now)
  }

  /** Last-write-wins on contents alone. */
  function Merge(c: Content, ms: seq<Mutation>): Content
    decreases |ms|
  {
    if ms == [] then c
    else Merge(if TimeOf(ms[0]) >= c.updatedAt then Outcome(c, ms[0]) else c, ms[1..])
  }

  function Mutations(sents: seq<Sent>): (ms: seq<Mutation>)
    ensures |ms| == |sents|
    ensures forall i :: 0 <= i < |ms| ==> ms[i] == sents[i].m
  {
    seq(|sents|, i requires 0 <= i < |sents| => sents[i].m)
  }

  lemma {:induction false} ApplyAllMerges(s: Server, user: Id, k: Key, sents: seq<Sent>, now: Time)
    requires Stored(s, user, k)
    requires forall i :: 0 <= i < |sents| ==> Unobstructed(s, user, k, sents[i])
    ensures k in ApplyAll(s, user, sents, now).rows
    ensures ContentOf(ApplyAll(s, user, sents, now).rows[k]) == Merge(ContentOf(s.rows[k]), Mutations(sents))
    decreases |sents|
  {
    if sents != [] {
      ApplyToStored(s, user, k, sents[0], now);
      var s1 := ApplyMutation(s, user, sents[0].device, sents[0].m, now, false).server;
      forall i | 0 <= i < |sents[1..]| ensures Unobstructed(s1, user, k, sents[1..][i]) {
        StaysUnobstructed(s, s1, user, k, sents[i + 1]);
      }
      ApplyAllMerges(s1, user, k, sents[1..], now);
      assert Mutations(sents)[1..] == Mutations(sents[1..]);
    }
  }

  lemma StaysUnobstructed(s: Server, s1: Server, user: Id, k: Key, sent: Sent)
    requires Stored(s, user, k) && Stored(s1, user, k) && Unobstructed(s, user, k, sent)
    requires s1.rows.Keys == s.rows.Keys && forall j :: j in s.rows && j != k ==> s1.rows[j] == s.rows[j]
    ensures Unobstructed(s1, user, k, sent)
  {
    if sent.m.operation.Upsert? && k.table.Topics? {
      forall j ensures !Clashes(s1.rows, user, k.id, sent.m.payload.value.body.title, j) {
        assert !Clashes(s.rows, user, k.id, sent.m.payload.value.body.title, j);
      }
    }
  }

  ghost predicate DistinctTimes(at: Time, ms: seq<Mutation>) {
    && (forall i :: 0 <= i < |ms| ==> TimeOf(ms[i]) != at)
    && (forall i, j :: 0 <= i < j < |ms| ==> TimeOf(ms[i]) != TimeOf(ms[j]))
  }

  /** Nothing in `ms` is later than time `t`. */
  ghost predicate Latest(t: Time, at: Time, ms: seq<Mutation>) {
    at <= t && forall i :: 0 <= i < |ms| ==> TimeOf(ms[i]) <= t
  }

  /** The merge is never older than anything merged. */
  lemma {:induction false} MergeIsLatest(c: Content, ms: seq<Mutation>)
    ensures Latest(Merge(c, ms).updatedAt, c.updatedAt, ms)
    decreases |ms|
  {
    if ms != [] {
      var c1 := if TimeOf(ms[0]) >= c.updatedAt then Outcome(c, ms[0]) else c;
      MergeIsLatest(c1, ms[1..]);
      forall i | 0 <= i < |ms| ensures TimeOf(ms[i]) <= Merge(c, ms).updatedAt {
        if i > 0 { assert ms[i] == ms[1..][i - 1]; }
      }
    }
  }

  /** The live side of the merge: time and tombstone mark are those of the latest write, and so is
      the body when the latest write is an upsert. */
  lemma {:induction false} MergeShowsLatest(c: Content, ms: seq<Mutation>, w: Mutation)
    requires w in ms && TimeOf(w) > c.updatedAt && DistinctTimes(c.updatedAt, ms)
    requires forall i :: 0 <= i < |ms| ==> TimeOf(ms[i]) <= TimeOf(w)
    ensures var out := Merge(c, ms);
      && out.updatedAt == TimeOf(w)
      && out.deletedAt == Outcome(c, w).deletedAt
      && (w.operation.Upsert? && PayloadOf(w).Some? ==> out == Outcome(c, w))
    decreases |ms|
  {
    var c1 := if TimeOf(ms[0]) >= c.updatedAt then Outcome(c, ms[0]) else c;
    if ms[0] == w {
      forall i | 0 <= i < |ms[1..]| ensures TimeOf(ms[1..][i]) < TimeOf(w) {
        assert ms[1..][i] == ms[i + 1];
      }
      OlderChangeNothing(c1, ms[1..]);
    } else {
      var i :| 0 <= i < |ms| && ms[i] == w;
      assert ms[1..][i - 1] == w;
      forall j | 0 <= j < |ms[1..]| ensures TimeOf(ms[1..][j]) != c1.updatedAt && TimeOf(ms[1..][j]) <= TimeOf(w) {
        assert ms[1..][j] == ms[j + 1];
      }
      MergeShowsLatest(c1, ms[1..], w);
    }
  }

  lemma {:induction false} OlderChangeNothing(c: Content, ms: seq<Mutation>)
    requires forall i :: 0 <= i < |ms| ==> TimeOf(ms[i]) < c.updatedAt
    ensures Merge(c, ms) == c
    decreases |ms|
  {
    if ms != [] {
      forall i | 0 <= i < |ms[1..]| ensures TimeOf(ms[1..][i]) < c.updatedAt {
        assert ms[1..][i] == ms[i + 1];
      }
      OlderChangeNothing(c, ms[1..]);
    }
  }

  /** What readers see of a record: a tombstone hides its body. */
  datatype Visible = Shown(content: Content) | Gone(at: Time)

  function VisibleOf(c: Content): Visible {
    if c.deletedAt.Some? then Gone(c.updatedAt) else Shown(c)
  }

  lemma {:induction false} SomeLatest(ms: seq<Mutation>) returns (w: Mutation)
    requires ms != []
    ensures w in ms && forall i :: 0 <= i < |ms| ==> TimeOf(ms[i]) <= TimeOf(w)
  {
    w := ms[0];
    if |ms| > 1 {
      var w' := SomeLatest(ms[1..]);
      if TimeOf(w') > TimeOf(w) { w := w'; }
      forall i | 0 <= i < |ms| ensures TimeOf(ms[i]) <= TimeOf(w) {
        if i > 0 { assert ms[i] == ms[1..][i - 1]; }
      }
    }
  }

  lemma EmptyTogether(ms: seq<Mutation>, ms': seq<Mutation>)
    requires forall m :: m in ms <==> m in ms'
    ensures ms == [] <==> ms' == []
  {
    if ms != [] { assert ms[0] in ms'; }
    if ms' != [] { assert ms'[0] in ms; }
  }

  lemma MergeIgnoresOrder(c: Content, ms: seq<Mutation>, ms': seq<Mutation>)
    requires (forall m :: m in ms <==> m in ms') && DistinctTimes(c.updatedAt, ms) && DistinctTimes(c.updatedAt, ms')
    ensures VisibleOf(Merge(c, ms)) == VisibleOf(Merge(c, ms'))
  {
    EmptyTogether(ms, ms');
    if ms != [] {
      var w := SomeLatest(ms);
      assert forall i :: 0 <= i < |ms'| ==> ms'[i] in ms;
      if TimeOf(w) > c.updatedAt {
        MergeShowsLatest(c, ms, w);
        MergeShowsLatest(c, ms', w);
      } else {
        OlderChangeNothing(c, ms);
        OlderChangeNothing(c, ms');
      }
    }
  }

  /** Writes with pairwise different times to one stored record end the same way in every order. */
  lemma OrderDoesNotMatter(s: Server, user: Id, k: Key, sents: seq<Sent>, sents': seq<Sent>, now: Time, now': Time)
    requires Stored(s, user, k)
    requires forall i :: 0 <= i < |sents| ==> Unobstructed(s, user, k, sents[i])
    requires multiset(sents) == multiset(sents')
    requires DistinctTimes(s.rows[k].updatedAt, Mutations(sents))
    ensures k in ApplyAll(s, user, sents, now).rows && k in ApplyAll(s, user, sents', now').rows
    ensures VisibleOf(ContentOf(ApplyAll(s, user, sents, now).rows[k]))
         == VisibleOf(ContentOf(ApplyAll(s, user, sents', now').rows[k]))
  {
    forall i | 0 <= i < |sents'| ensures Unobstructed(s, user, k, sents'[i]) {
      assert sents'[i] in multiset(sents);
    }
    ApplyAllMerges(s, user, k, sents, now);
    ApplyAllMerges(s, user, k, sents', now');
    DistinctTimesPermute(s.rows[k].updatedAt, sents, sents');
    SameMembers(sents, sents');
    MergeIgnoresOrder(ContentOf(s.rows[k]), Mutations(sents), Mutations(sents'));
  }

  /** The mutation is an upsert that carries a body. */
  predicate CarriesBody(m: Mutation) { m.operation.Upsert? && PayloadOf(m).Some? }

  /** A write that could change the body: an upsert newer than the stored version with another body. */
  predicate ChangesBody(c: Content, m: Mutation) {
    CarriesBody(m) && TimeOf(m) > c.updatedAt && StoredBody(m.payload.value.body) != c.body
  }

  lemma {:induction false} MergeKeepsBody(c: Content, ms: seq<Mutation>)
    requires forall i :: 0 <= i < |ms| && CarriesBody(ms[i]) && TimeOf(ms[i]) >= c.updatedAt ==> StoredBody(ms[i].payload.value.body) == c.body
    ensures Merge(c, ms).body == c.body
    decreases |ms|
  {
    if ms != [] {
      var c1 := if TimeOf(ms[0]) >= c.updatedAt then Outcome(c, ms[0]) else c;
      assert c1.body == c.body && c1.updatedAt >= c.updatedAt;
      forall i | 0 <= i < |ms[1..]| && CarriesBody(ms[1..][i]) && TimeOf(ms[1..][i]) >= c1.updatedAt
        ensures StoredBody(ms[1..][i].payload.value.body) == c1.body
      {
        assert ms[1..][i] == ms[i + 1];
      }
      MergeKeepsBody(c1, ms[1..]);
    }
  }

  function Without(ms: seq<Mutation>, i: nat): seq<Mutation>
    requires i < |ms|
  {
    ms[..i] + ms[i + 1..]
  }

  lemma MoveFirst(ms: seq<Mutation>, i: nat)
    requires i < |ms|
    ensures multiset([ms[i]] + Without(ms, i)) == multiset(ms)
    ensures forall j :: 0 <= j < |Without(ms, i)| ==> Without(ms, i)[j] in ms
  {
    assert ms == ms[..i] + [ms[i]] + ms[i + 1..];
  }

  /** With the latest delete first, nothing else applies and the stored body stays. */
  lemma DeleteFirst(c: Content, ms: seq<Mutation>, i: nat)
    requires i < |ms| && !CarriesBody(ms[i]) && TimeOf(ms[i]) > c.updatedAt
    requires forall j :: 0 <= j < |ms| && j != i ==> TimeOf(ms[j]) < TimeOf(ms[i])
    ensures Merge(c, [ms[i]] + Without(ms, i)).body == c.body
  {
    var order := [ms[i]] + Without(ms, i);
    assert order[1..] == Without(ms, i);
    forall j | 0 <= j < |Without(ms, i)| ensures TimeOf(Without(ms, i)[j]) < TimeOf(ms[i]) {
      assert Without(ms, i)[j] == ms[if j < i then j else j + 1];
    }
    OlderChangeNothing(Outcome(c, ms[i]), Without(ms, i));
  }

  /** With another upsert first and the latest delete second, the upsert's body stays. */
  lemma UpsertThenDelete(c: Content, u: Mutation, w: Mutation, rest: seq<Mutation>)
    requires CarriesBody(u) && !CarriesBody(w) && c.updatedAt < TimeOf(u) < TimeOf(w)
    requires forall j :: 0 <= j < |rest| ==> TimeOf(rest[j]) < TimeOf(w)
    ensures Merge(c, [u, w] + rest).body == StoredBody(u.payload.value.body)
  {
    var order := [u, w] + rest;
    assert order[1..] == [w] + rest && ([w] + rest)[1..] == rest;
    OlderChangeNothing(Outcome(Outcome(c, u), w), rest);
  }

  /** The whole stored content, hidden body included, is the same for every order. */
  ghost predicate OrderFree(c: Content, ms: seq<Mutation>) {
    forall ms' :: multiset(ms') == multiset(ms) ==> Merge(c, ms') == Merge(c, ms)
  }

  /** When the latest write is a delete, the order does not matter for the hidden body either, exactly
      when no upsert could have changed the body. */
  lemma HiddenBodyIff(c: Content, ms: seq<Mutation>, w: Mutation)
    requires DistinctTimes(c.updatedAt, ms) && w in ms && !CarriesBody(w) && TimeOf(w) > c.updatedAt
    requires forall i :: 0 <= i < |ms| ==> TimeOf(ms[i]) <= TimeOf(w)
    ensures OrderFree(c, ms) <==> forall u :: u in ms ==> !ChangesBody(c, u)
  {
    if forall u :: u in ms ==> !ChangesBody(c, u) {
      forall ms' | multiset(ms') == multiset(ms) ensures Merge(c, ms') == Merge(c, ms) {
        SameHidden(c, ms, ms', w);
      }
    } else {
      var i :| 0 <= i < |ms| && ms[i] == w;
      var u :| u in ms && ChangesBody(c, u);
      var j :| 0 <= j < |ms| && ms[j] == u;
      TwoOrdersDiffer(c, ms, i, j);
    }
  }

  /** Some order in which the body stays what it was. */
  lemma OrderKeepsBody(c: Content, ms: seq<Mutation>, i: nat) returns (a: seq<Mutation>)
    requires i < |ms| && DistinctTimes(c.updatedAt, ms)
    requires !CarriesBody(ms[i]) && TimeOf(ms[i]) > c.updatedAt && forall k :: 0 <= k < |ms| ==> TimeOf(ms[k]) <= TimeOf(ms[i])
    ensures multiset(a) == multiset(ms) && Merge(c, a).body == c.body
  {
    MoveFirst(ms, i);
    forall x | 0 <= x < |ms| && x != i ensures TimeOf(ms[x]) < TimeOf(ms[i]) {
      assert TimeOf(ms[if x < i then x else i]) != TimeOf(ms[if x < i then i else x]);
    }
    DeleteFirst(c, ms, i);
    a := [ms[i]] + Without(ms, i);
  }

  lemma WithoutIsOlder(c: Content, ms: seq<Mutation>, i: nat, rest: seq<Mutation>, k: nat)
    requires i < |ms| && DistinctTimes(c.updatedAt, ms) && forall x :: 0 <= x < |ms| ==> TimeOf(ms[x]) <= TimeOf(ms[i])
    requires k < |rest| && rest[k] == ms[i] && DistinctTimes(c.updatedAt, rest) && forall x :: 0 <= x < |rest| ==> rest[x] in ms
    ensures forall x :: 0 <= x < |Without(rest, k)| ==> TimeOf(Without(rest, k)[x]) < TimeOf(ms[i])
  {
    forall x | 0 <= x < |Without(rest, k)| ensures TimeOf(Without(rest, k)[x]) < TimeOf(ms[i]) {
      var y := if x < k then x else x + 1;
      assert Without(rest, k)[x] == rest[y] && rest[y] in ms;
      assert TimeOf(rest[if y < k then y else k]) != TimeOf(rest[if y < k then k else y]);
    }
  }

  lemma WithoutIsDistinct(at: Time, ms: seq<Mutation>, j: nat)
    requires j < |ms| && DistinctTimes(at, ms)
    ensures DistinctTimes(at, Without(ms, j))
  {
    var rest := Without(ms, j);
    assert forall x :: 0 <= x < |rest| ==> rest[x] == ms[if x < j then x else x + 1];
  }

  /** Some order in which the body becomes that of a given newer upsert. */
  lemma OrderTakesBody(c: Content, ms: seq<Mutation>, i: nat, j: nat) returns (b: seq<Mutation>)
    requires i < |ms| && j < |ms| && DistinctTimes(c.updatedAt, ms) && CarriesBody(ms[j]) && TimeOf(ms[j]) > c.updatedAt
    requires !CarriesBody(ms[i]) && forall k :: 0 <= k < |ms| ==> TimeOf(ms[k]) <= TimeOf(ms[i])
    ensures multiset(b) == multiset(ms) && Merge(c, b).body == StoredBody(ms[j].payload.value.body)
  {
    var rest := Without(ms, j);
    var k := if i < j then i else i - 1;
    assert rest[k] == ms[i];
    assert TimeOf(ms[if i < j then i else j]) != TimeOf(ms[if i < j then j else i]);
    TwoFirst(ms, j, k);
    MoveFirst(ms, j);
    WithoutIsDistinct(c.updatedAt, ms, j);
    WithoutIsOlder(c, ms, i, rest, k);
    UpsertThenDelete(c, ms[j], ms[i], Without(rest, k));
    b := [ms[j], ms[i]] + Without(rest, k);
  }

  lemma TwoOrdersDiffer(c: Content, ms: seq<Mutation>, i: nat, j: nat)
    requires i < |ms| && j < |ms| && DistinctTimes(c.updatedAt, ms) && ChangesBody(c, ms[j])
    requires !CarriesBody(ms[i]) && TimeOf(ms[i]) > c.updatedAt && forall k :: 0 <= k < |ms| ==> TimeOf(ms[k]) <= TimeOf(ms[i])
    ensures !OrderFree(c, ms)
  {
    var a := OrderKeepsBody(c, ms, i);
    var b := OrderTakesBody(c, ms, i, j);
    DifferentBodies(c, ms, a, b);
  }

  lemma DifferentBodies(c: Content, ms: seq<Mutation>, a: seq<Mutation>, b: seq<Mutation>)
    requires multiset(a) == multiset(ms) && multiset(b) == multiset(ms) && Merge(c, a).body != Merge(c, b).body
    ensures !OrderFree(c, ms)
  {
  }

  lemma TwoFirst(ms: seq<Mutation>, j: nat, k: nat)
    requires j < |ms| && k < |ms| - 1
    ensures var rest := Without(ms, j); multiset([ms[j], rest[k]] + Without(rest, k)) == multiset(ms)
  {
    var rest := Without(ms, j);
    MoveFirst(ms, j);
    MoveFirst(rest, k);
    assert [ms[j], rest[k]] + Without(rest, k) == [ms[j]] + ([rest[k]] + Without(rest, k));
  }

  lemma SameHidden(c: Content, ms: seq<Mutation>, ms': seq<Mutation>, w: Mutation)
    requires DistinctTimes(c.updatedAt, ms) && w in ms && TimeOf(w) > c.updatedAt && !CarriesBody(w)
    requires forall i :: 0 <= i < |ms| ==> TimeOf(ms[i]) <= TimeOf(w)
    requires multiset(ms') == multiset(ms) && forall u :: u in ms ==> !ChangesBody(c, u)
    ensures Merge(c, ms') == Merge(c, ms)
  {
    assert forall m :: m in ms' <==> m in multiset(ms');
    assert forall m :: m in ms <==> m in multiset(ms);
    forall i | 0 <= i < |ms| ensures !ChangesBody(c, ms[i]) && TimeOf(ms[i]) != c.updatedAt { assert ms[i] in ms; }
    forall i | 0 <= i < |ms'| ensures !ChangesBody(c, ms'[i]) && TimeOf(ms'[i]) != c.updatedAt && TimeOf(ms'[i]) <= TimeOf(w) {
      assert ms'[i] in ms';
      var j :| 0 <= j < |ms| && ms[j] == ms'[i];
    }
    MergeKeepsBody(c, ms);
    MergeKeepsBody(c, ms');
    MergeShowsLatest(c, ms, w);
    PermutedDistinct(c.updatedAt, ms, ms');
    MergeShowsLatest(c, ms', w);
  }

  lemma {:induction false} OnceInOrder(at: Time, ms: seq<Mutation>, x: Mutation)
    requires DistinctTimes(at, ms)
    ensures multiset(ms)[x] <= 1
  {
    if ms != [] {
      var n := |ms| - 1;
      assert ms == ms[..n] + [ms[n]];
      OnceInOrder(at, ms[..n], x);
      forall i | 0 <= i < n ensures ms[i] != ms[n] {
        assert TimeOf(ms[i]) != TimeOf(ms[n]);
      }
      if ms[n] == x { assert x !in ms[..n]; }
    }
  }

  /** Distinct times stay distinct in any order. */
  lemma PermutedDistinct(at: Time, ms: seq<Mutation>, ms': seq<Mutation>)
    requires DistinctTimes(at, ms) && multiset(ms') == multiset(ms)
    ensures DistinctTimes(at, ms')
  {
    forall i | 0 <= i < |ms'| ensures TimeOf(ms'[i]) != at {
      assert ms'[i] in multiset(ms);
    }
    forall i, j | 0 <= i < j < |ms'| ensures TimeOf(ms'[i]) != TimeOf(ms'[j]) {
      if ms'[i] == ms'[j] {
        TwiceInSeq(ms', i, j);
        OnceInOrder(at, ms, ms'[i]);
        assert false;
      } else {
        assert ms'[i] in multiset(ms) && ms'[j] in multiset(ms);
      }
    }
  }

  lemma SameMembers(sents: seq<Sent>, sents': seq<Sent>)
    requires multiset(sents) == multiset(sents')
    ensures forall m :: m in Mutations(sents) <==> m in Mutations(sents')
  {
    forall m ensures m in Mutations(sents) <==> m in Mutations(sents') {
      if m in Mutations(sents) {
        var i :| 0 <= i < |sents| && sents[i].m == m;
        assert sents[i] in multiset(sents');
      }
      if m in Mutations(sents') {
        var i :| 0 <= i < |sents'| && sents'[i].m == m;
        assert sents'[i] in multiset(sents);
      }
    }
  }

  lemma DistinctTimesPermute(at: Time, sents: seq<Sent>, sents': seq<Sent>)
    requires DistinctTimes(at, Mutations(sents)) && multiset(sents) == multiset(sents')
    ensures DistinctTimes(at, Mutations(sents'))
  {
    forall i | 0 <= i < |sents'| ensures TimeOf(sents'[i].m) != at {
      assert sents'[i] in multiset(sents);
    }
    forall i, j | 0 <= i < j < |sents'| ensures TimeOf(sents'[i].m) != TimeOf(sents'[j].m) {
      if sents'[i] == sents'[j] {
        TwiceInSeq(sents', i, j);
        OnceInSeq(at, sents, sents'[i]);
        assert false;
      } else {
        assert sents'[i] in multiset(sents) && sents'[j] in multiset(sents);
      }
    }
  }

  lemma TwiceInSeq<T>(xs: seq<T>, i: nat, j: nat)
    requires i < j < |xs| && xs[i] == xs[j]
    ensures multiset(xs)[xs[i]] >= 2
  {
    assert xs == xs[..j] + [xs[j]] + xs[j + 1..];
    assert xs[i] in xs[..j];
  }

  lemma {:induction false} OnceInSeq(at: Time, sents: seq<Sent>, x: Sent)
    requires DistinctTimes(at, Mutations(sents))
    ensures multiset(sents)[x] <= 1
    decreases |sents|
  {
    if sents != [] {
      var n := |sents| - 1;
      assert sents == sents[..n] + [sents[n]];
      assert Mutations(sents[..n]) == Mutations(sents)[..n];
      OnceInSeq(at, sents[..n], x);
      forall i | 0 <= i < n ensures sents[i] != sents[n] {
        assert TimeOf(Mutations(sents)[i]) != TimeOf(Mutations(sents)[n]);
      }
      if sents[n] == x { assert x !in sents[..n]; }
    }
  }

  // ----- where the hypotheses are needed -----

  const EXAMPLE_TOPIC := Row("u", TopicBody("t", 0, "[]", 0, Some(false)), 1, None, 1)

  function ExampleUpsert(at: Time, data: string): Sent {
    var r := Record("c", CardBody("T", 1, data, None), at, None);
    Sent("d", Mutation("op", Key(Cards, "c"), Upsert, at, Some(r)))
  }

  function ExampleDelete(at: Time): Sent {
    Sent("d", Mutation("op", Key(Cards, "c"), Delete, at, None))
  }

  /** Two writes with equal times: the one that arrives last stays. */
  lemma TiesDependOnOrder()
    ensures var s := Server(map[Key(Topics, "T") := EXAMPLE_TOPIC], map["u" := 1], {}, map[]);
      var a, b := ExampleUpsert(5, "a"), ExampleUpsert(5, "b");
      var k := Key(Cards, "c");
      && k in ApplyAll(s, "u", [a, b], 9).rows && k in ApplyAll(s, "u", [b, a], 9).rows
      && ApplyAll(s, "u", [a, b], 9).rows[k].body != ApplyAll(s, "u", [b, a], 9).rows[k].body
  {
    var s := Server(map[Key(Topics, "T") := EXAMPLE_TOPIC], map["u" := 1], {}, map[]);
    var a, b := ExampleUpsert(5, "a"), ExampleUpsert(5, "b");
    ServerTieGoesToIncoming(5, 5, "d", "c");
    TwoSteps(s, "u", a, b, 9);
    TwoSteps(s, "u", b, a, 9);
  }

  /** A delete that arrives before the record does leaves no tombstone, so an older upsert stays. */
  lemma EarlyDeleteIsForgotten()
    ensures var s := Server(map[Key(Topics, "T") := EXAMPLE_TOPIC], map["u" := 1], {}, map[]);
      var a, d := ExampleUpsert(5, "a"), ExampleDelete(7);
      var k := Key(Cards, "c");
      && k in ApplyAll(s, "u", [d, a], 9).rows && Live(ApplyAll(s, "u", [d, a], 9).rows[k])
      && k in ApplyAll(s, "u", [a, d], 9).rows && !Live(ApplyAll(s, "u", [a, d], 9).rows[k])
  {
    var s := Server(map[Key(Topics, "T") := EXAMPLE_TOPIC], map["u" := 1], {}, map[]);
    var a, d := ExampleUpsert(5, "a"), ExampleDelete(7);
    TwoSteps(s, "u", a, d, 9);
    TwoSteps(s, "u", d, a, 9);
  }

  lemma TwoSteps(s: Server, user: Id, a: Sent, b: Sent, now: Time)
    requires ApplyMutation(s, user, a.device, a.m, now, false).Commit?
    requires var s1 := ApplyMutation(s, user, a.device, a.m, now, false).server;
      ApplyMutation(s1, user, b.device, b.m, now, false).Commit?
    ensures var s1 := ApplyMutation(s, user, a.device, a.m, now, false).server;
      ApplyAll(s, user, [a, b], now) == ApplyMutation(s1, user, b.device, b.m, now, false).server
  {
    var s1 := ApplyMutation(s, user, a.device, a.m, now, false).server;
    var s2 := ApplyMutation(s1, user, b.device, b.m, now, false).server;
    assert [a, b][1..] == [b] && [b][1..] == [];
    assert ApplyAll(s2, user, [], now) == s2;
    assert ApplyAll(s1, user, [b], now) == s2;
  }
}
