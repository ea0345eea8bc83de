// Vocabulary shared by the server, the client and the composed system.

module SyncTypes {
  datatype Option<+T> = None | Some(value: T) {
    function GetOr(default: T): T {
      if None? then default else value
    }
  }

  type Id = string
  type Time = int

  datatype Table = Topics | Cards
  datatype Operation = Upsert | Delete

  /** A record's identity: its table and its id. */
  datatype Key = Key(table: Table, id: Id)

  /** What a topic or a card holds besides its id and its bookkeeping times. */
  datatype Body =
    | TopicBody(title: string, pivot: int, week: string, nextUpdateDate: int, isArchived: Option<bool>)
    | CardBody(topicId: Id, level: int, data: string, reviewDate: Option<int>)

  /** A record as it travels on the wire. */
  datatype Record = Record(id: Id, body: Body, updatedAt: Time, deletedAt: Option<Time>)

  /** One outbox operation as it is pushed. Deletes carry no payload. */
  datatype Mutation = Mutation(
    opId: Id, key: Key, operation: Operation, updatedAt: Time, payload: Option<Record>)

  /** Why the server refuses an operation. */
  datatype Failure = Forbidden | Malformed(problem: string) | TopicNotSynced | ApplyFailed | MediaRefused(again: bool) {
    // A verdict on the operation itself is final; anything that time can cure is not.
    predicate Retryable() {
      match this
      case Forbidden => false
      case Malformed(_) => false
      case TopicNotSynced => true
      case ApplyFailed => true
      case MediaRefused(again) => again
    }
  }

  datatype Rejection = Rejection(opId: Id, failure: Failure)

  /** A title clash the server settled by renaming `topicId`. */
  datatype Conflict = Conflict(topicId: Id, oldTitle: string, newTitle: string, updatedAt: Time)

  datatype Ack = Ack(accepted: seq<Id>, rejected: seq<Rejection>, conflicts: seq<Conflict>)

  function Min(a: int, b: int): int { if a <= b then a else b }

  function Max(a: int, b: int): int { if a >= b then a else b }

  /** The op ids named by a list of rejections. */
  function RejectedIds(rejected: seq<Rejection>): (ids: seq<Id>)
    ensures |ids| == |rejected|
    ensures forall i :: 0 <= i < |ids| ==> ids[i] == rejected[i].opId
  {
    seq(|rejected|, i requires 0 <= i < |rejected| => rejected[i].opId)
  }

  /** Three-way comparison of identifiers by character code. */
  function Compare(a: string, b: string): int
    decreases |a|
  {
    if a == [] then (if b == [] then 0 else -1)
    else if b == [] then 1
    else if a[0] < b[0] then -1
    else if a[0] > b[0] then 1
    else Compare(a[1..], b[1..])
  }

  /** The strings agree up to here, and then the first ends or has the lower character. */
  predicate LowerFrom(a: string, b: string, i: nat) {
    i <= |a| && i < |b| && a[..i] == b[..i] && (i < |a| ==> a[i] < b[i])
  }

  lemma LowerFromNext(a: string, b: string, i: nat)
    requires a != [] && b != []
    ensures LowerFrom(a, b, i + 1) <==> a[0] == b[0] && LowerFrom(a[1..], b[1..], i)
  {
    if i + 1 <= |a| && i + 1 <= |b| {
      assert a[..i + 1] == [a[0]] + a[1..][..i];
      assert b[..i + 1] == [b[0]] + b[1..][..i];
    }
  }

  /** The comparison is that of a dictionary, by character code. */
  lemma {:induction false} CompareIsDictionary(a: string, b: string)
    ensures Compare(a, b) < 0 <==> exists i: nat :: LowerFrom(a, b, i)
    decreases |a|
  {
    if a == [] || b == [] {
      assert LowerFrom(a, b, 0) <==> a == [] != b;
    } else {
      CompareIsDictionary(a[1..], b[1..]);
      assert a[..0] == b[..0];
      if Compare(a, b) < 0 {
        if a[0] == b[0] {
          var i: nat :| LowerFrom(a[1..], b[1..], i);
          LowerFromNext(a, b, i);
        } else {
          assert LowerFrom(a, b, 0);
        }
      } else if i: nat :| LowerFrom(a, b, i) && i > 0 {
        LowerFromNext(a, b, i - 1);
      }
    }
  }

  lemma {:induction false} CompareIsOrder(a: string, b: string)
    ensures Compare(a, b) == -Compare(b, a)
    ensures Compare(a, b) == 0 <==> a == b
    decreases |a|
  {
    if a != [] && b != [] && a[0] == b[0] {
      CompareIsOrder(a[1..], b[1..]);
      assert a == [a[0]] + a[1..] && b == [b[0]] + b[1..];
    }
  }
}
