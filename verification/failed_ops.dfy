// The stored list of operations that will not be tried again: newest last, one entry per operation,
// at most fifty.

module FailedList {
  import opened SyncTypes
  import opened Outbox

  const MAX_FAILED_OPS: nat := 50

  datatype FailedOp = FailedOp(opId: Id, key: Key, code: string)

  function Without(ops: seq<FailedOp>, ids: set<Id>): seq<FailedOp> {
    if ops == [] then []
    else Without(ops[..|ops| - 1], ids) + (if ops[|ops| - 1].opId in ids then [] else [ops[|ops| - 1]])
  }

  function Newest(ops: seq<FailedOp>): seq<FailedOp> {
    if |ops| <= MAX_FAILED_OPS then ops else ops[|ops| - MAX_FAILED_OPS..]
  }

  function IdsOf(ops: seq<FailedOp>): set<Id> {
    set op | op in ops :: op.opId
  }

  /** Appends entries; an earlier entry of the same operation gives way. */
  function AddFailed(existing: seq<FailedOp>, entries: seq<FailedOp>): seq<FailedOp> {
    if entries == [] then existing else Newest(Without(existing, IdsOf(entries)) + entries)
  }

  ghost predicate OnePerOp(ops: seq<FailedOp>) {
    forall i, j :: 0 <= i < j < |ops| ==> ops[i].opId != ops[j].opId
  }

  lemma {:induction false} WithoutKeeps(ops: seq<FailedOp>, ids: set<Id>)
    ensures forall op :: op in Without(ops, ids) <==> op in ops && op.opId !in ids
    ensures OnePerOp(ops) ==> OnePerOp(Without(ops, ids))
  {
    if ops != [] {
      var n := |ops| - 1;
      WithoutKeeps(ops[..n], ids);
      assert ops == ops[..n] + [ops[n]];
      assert OnePerOp(ops) ==> OnePerOp(ops[..n]);
      if OnePerOp(ops) {
        forall op | op in Without(ops[..n], ids) ensures op.opId != ops[n].opId {
          assert op in ops[..n];
        }
      }
    }
  }

  /** One entry per operation is kept, the bound holds, new entries up to the bound all survive, and
      an old entry is forgotten only to a new one of its operation or to the bound. */
  lemma AddFailedFacts(existing: seq<FailedOp>, entries: seq<FailedOp>)
    requires OnePerOp(existing) && OnePerOp(entries) && |existing| <= MAX_FAILED_OPS
    ensures var after := AddFailed(existing, entries);
      && OnePerOp(after) && |after| <= MAX_FAILED_OPS
      && (|entries| <= MAX_FAILED_OPS ==> forall op :: op in entries ==> op in after)
      && (forall op :: op in after ==> op in entries || op in existing)
      && (|Without(existing, IdsOf(entries))| + |entries| <= MAX_FAILED_OPS ==>
            forall op :: op in existing && op.opId !in IdsOf(entries) ==> op in after)
  {
    if entries != [] {
      WithoutKeeps(existing, IdsOf(entries));
      var kept := Without(existing, IdsOf(entries));
      var all := kept + entries;
      assert OnePerOp(all) by {
        forall i, j | 0 <= i < j < |all| ensures all[i].opId != all[j].opId {
          if i < |kept| <= j { assert kept[i] in kept && entries[j - |kept|] in entries; }
        }
      }
      var after := Newest(all);
      if |entries| <= MAX_FAILED_OPS {
        forall op | op in entries ensures op in after {
          var i :| 0 <= i < |entries| && entries[i] == op;
          var n := |after|;
          assert after[n - |entries| + i] == op;
        }
      }
    }
  }
}
