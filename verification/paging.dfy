// The pull: two limited queries, merged and cut, against the simple "lowest rows first".

module Paging {
  import opened SyncTypes
  import opened ServerApply

  /** One delivered row. */
  datatype PageRow = PageRow(key: Key, row: Row)

  datatype Page = Page(records: seq<PageRow>, watermark: nat, more: bool)

  ghost predicate InjectiveOn(rows: map<Key, Row>, ks: set<Key>) {
    && (forall k :: k in ks ==> k in rows)
    && (forall j, k :: j in ks && k in ks && rows[j].serverSeq == rows[k].serverSeq ==> j == k)
  }

  /** Strictly increasing in sequence. */
  ghost predicate Sorted(rows: map<Key, Row>, p: seq<Key>) {
    && (forall i :: 0 <= i < |p| ==> p[i] in rows)
    && (forall i, j :: 0 <= i < j < |p| ==> rows[p[i]].serverSeq < rows[p[j]].serverSeq)
  }

  /** `p` is the `n` lowest keys of `ks`, in order: the simple specification of a page. */
  ghost predicate LowestFirst(rows: map<Key, Row>, ks: set<Key>, n: nat, p: seq<Key>) {
    && Sorted(rows, p)
    && (forall i :: 0 <= i < |p| ==> p[i] in ks)
    && |p| == Min(n, |ks|)
    && (forall k, i :: k in ks && k in rows && k !in p && 0 <= i < |p| ==> rows[p[i]].serverSeq < rows[k].serverSeq)
  }

  function Elements(p: seq<Key>): set<Key> {
    set x | x in p
  }

  lemma {:induction false} ElementsCount(rows: map<Key, Row>, p: seq<Key>)
    requires Sorted(rows, p)
    ensures |Elements(p)| == |p|
  {
    if p != [] {
      var n := |p| - 1;
      ElementsCount(rows, p[..n]);
      assert p == p[..n] + [p[n]];
      assert p[n] !in p[..n];
      assert Elements(p) == Elements(p[..n]) + {p[n]};
    }
  }

  lemma SubsetCount(a: set<Key>, b: set<Key>)
    requires a <= b
    ensures |a| <= |b|
    ensures |a| == |b| ==> a == b
  {
    assert b == a + (b - a);
    assert |b| == |a| + |b - a|;
  }

  /** The specification determines the page. */
  lemma {:induction false} LowestFirstUnique(rows: map<Key, Row>, ks: set<Key>, n: nat, p: seq<Key>, q: seq<Key>)
    requires InjectiveOn(rows, ks) && LowestFirst(rows, ks, n, p) && LowestFirst(rows, ks, n, q)
    ensures p == q
  {
    ElementsCount(rows, p);
    ElementsCount(rows, q);
    if Elements(p) <= Elements(q) {
      SubsetCount(Elements(p), Elements(q));
      SortedUnique(rows, p, q);
    } else if Elements(q) <= Elements(p) {
      SubsetCount(Elements(q), Elements(p));
      assert false;
    } else {
      assert false;
    }
  }

  lemma {:induction false} SortedUnique(rows: map<Key, Row>, p: seq<Key>, q: seq<Key>)
    requires Sorted(rows, p) && Sorted(rows, q) && Elements(p) == Elements(q)
    ensures p == q
    decreases |p|
  {
    ElementsCount(rows, p);
    ElementsCount(rows, q);
    if p != [] {
      var n := |p| - 1;
      assert p[n] in Elements(q) && q[n] in Elements(p);
      assert p[n] == q[n];
      assert Elements(p[..n]) == Elements(p) - {p[n]};
      assert Elements(q[..n]) == Elements(q) - {q[n]};
      SortedUnique(rows, p[..n], q[..n]);
    }
  }

  // ----- one query -----

  function Lowest(rows: map<Key, Row>, ks: set<Key>): (k: Key)
    requires InjectiveOn(rows, ks) && ks != {}
    ensures k in ks && forall j :: j in ks && j != k ==> rows[k].serverSeq < rows[j].serverSeq
  {
    HasLowest(rows, ks);
    var k :| k in ks && forall j :: j in ks ==> rows[k].serverSeq <= rows[j].serverSeq;
    k
  }

  /** The keys of a set, lowest sequence first. */
  function BySeq(rows: map<Key, Row>, ks: set<Key>): (p: seq<Key>)
    requires InjectiveOn(rows, ks)
    ensures |p| == |ks| && (forall x :: x in p <==> x in ks)
    decreases |ks|
  {
    if ks == {} then [] else [Lowest(rows, ks)] + BySeq(rows, ks - {Lowest(rows, ks)})
  }

  lemma {:induction false} BySeqSorts(rows: map<Key, Row>, ks: set<Key>)
    requires InjectiveOn(rows, ks)
    ensures Sorted(rows, BySeq(rows, ks))
    decreases |ks|
  {
    if ks != {} {
      var k := Lowest(rows, ks);
      BySeqSorts(rows, ks - {k});
      PrependSorted(rows, k, BySeq(rows, ks - {k}));
    }
  }

  lemma PrependSorted(rows: map<Key, Row>, k: Key, rest: seq<Key>)
    requires Sorted(rows, rest) && k in rows
    requires forall x :: x in rest ==> x in rows && rows[k].serverSeq < rows[x].serverSeq
    ensures Sorted(rows, [k] + rest)
  {
    forall i | 0 <= i < |rest| ensures rows[k].serverSeq < rows[rest[i]].serverSeq {
      assert rest[i] in rest;
    }
  }

  lemma {:induction false} HasLowest(rows: map<Key, Row>, ks: set<Key>)
    requires ks != {} && forall k :: k in ks ==> k in rows
    ensures exists k :: k in ks && forall j :: j in ks ==> rows[k].serverSeq <= rows[j].serverSeq
    decreases |ks|
  {
    var k :| k in ks;
    if ks != {k} {
      HasLowest(rows, ks - {k});
      var l :| l in ks - {k} && forall j :: j in ks - {k} ==> rows[l].serverSeq <= rows[j].serverSeq;
      var best := if rows[k].serverSeq <= rows[l].serverSeq then k else l;
      forall j | j in ks ensures rows[best].serverSeq <= rows[j].serverSeq {
        if j != k { assert j in ks - {k}; }
      }
    } else {
      assert forall j :: j in ks ==> j == k;
    }
  }

  function Take(p: seq<Key>, n: nat): (r: seq<Key>)
    ensures |r| == Min(|p|, n)
    ensures forall i :: 0 <= i < |r| ==> r[i] == p[i]
  {
    if |p| <= n then p else p[..n]
  }

  lemma TakeMembers(p: seq<Key>, n: nat)
    ensures forall j :: 0 <= j < |Take(p, n)| ==> p[j] in Take(p, n)
  {
    var q := Take(p, n);
    forall j | 0 <= j < |q| ensures p[j] in q {
      assert q[j] in q;
    }
  }

  /** A prefix of the sorted keys is the lowest of them. */
  lemma TakeIsLowest(rows: map<Key, Row>, ks: set<Key>, p: seq<Key>, n: nat)
    requires Sorted(rows, p) && (forall x :: x in p <==> x in ks) && |p| == |ks|
    ensures LowestFirst(rows, ks, n, Take(p, n))
  {
    var q := Take(p, n);
    forall i | 0 <= i < |q| ensures q[i] in ks { assert q[i] == p[i]; }
    forall k, i | k in ks && k in rows && k !in q && 0 <= i < |q| ensures rows[q[i]].serverSeq < rows[k].serverSeq {
      var j :| 0 <= j < |p| && p[j] == k;
      assert j >= |q|;
    }
  }

  /** Keys of one table of the user above the cursor. */
  function Matching(s: Server, user: Id, table: Table, since: nat): set<Key> {
    set k | k in s.rows && k.table == table && s.rows[k].owner == user && s.rows[k].serverSeq > since
  }

  function Above(s: Server, user: Id, since: nat): set<Key> {
    set k | k in s.rows && s.rows[k].owner == user && s.rows[k].serverSeq > since
  }

  // ----- merge and cut -----

  function Insert(rows: map<Key, Row>, k: Key, p: seq<Key>): (r: seq<Key>)
    requires k in rows && (forall x :: x in p ==> x in rows)
    ensures |r| == |p| + 1 && (forall x :: x in r <==> x in p || x == k)
    decreases |p|
  {
    if p == [] || rows[k].serverSeq <= rows[p[0]].serverSeq then [k] + p
    else [p[0]] + Insert(rows, k, p[1..])
  }

  lemma {:induction false} InsertSorts(rows: map<Key, Row>, k: Key, p: seq<Key>)
    requires k in rows && Sorted(rows, p)
    requires forall x :: x in p ==> rows[x].serverSeq != rows[k].serverSeq
    ensures Sorted(rows, Insert(rows, k, p))
    decreases |p|
  {
    if p != [] && rows[k].serverSeq > rows[p[0]].serverSeq {
      InsertSorts(rows, k, p[1..]);
      var rest := Insert(rows, k, p[1..]);
      forall j | 0 <= j < |rest| ensures rows[p[0]].serverSeq < rows[rest[j]].serverSeq {
        assert rest[j] in rest;
      }
    }
  }

  /** Sorting a list by sequence. */
  function SortKeys(rows: map<Key, Row>, p: seq<Key>): (r: seq<Key>)
    requires forall x :: x in p ==> x in rows
    ensures |r| == |p| && (forall x :: x in r <==> x in p)
    decreases |p|
  {
    if p == [] then []
    else
      assert p == [p[0]] + p[1..];
      Insert(rows, p[0], SortKeys(rows, p[1..]))
  }

  lemma {:induction false} SortKeysSorts(rows: map<Key, Row>, p: seq<Key>)
    requires forall x :: x in p ==> x in rows
    requires forall i, j :: 0 <= i < j < |p| ==> rows[p[i]].serverSeq != rows[p[j]].serverSeq
    ensures Sorted(rows, SortKeys(rows, p))
    decreases |p|
  {
    if p != [] {
      SortKeysSorts(rows, p[1..]);
      forall x | x in p[1..] ensures rows[x].serverSeq != rows[p[0]].serverSeq {
        var i :| 0 <= i < |p[1..]| && p[1..][i] == x;
        assert p[i + 1] == x;
      }
      InsertSorts(rows, p[0], SortKeys(rows, p[1..]));
    }
  }

  /** The lowest rows of one table above the cursor. */
  function Query(s: Server, user: Id, table: Table, since: nat, take: nat): (p: seq<Key>)
    requires SeqsSound(s, user)
    ensures LowestFirst(s.rows, Matching(s, user, table, since), take, p)
  {
    var ks := Matching(s, user, table, since);
    var all := BySeq(s.rows, ks);
    BySeqSorts(s.rows, ks);
    TakeIsLowest(s.rows, ks, all, take);
    Take(all, take)
  }

  /** Both queries, `limit + 1` rows each, merged by sequence. */
  function Merged(s: Server, user: Id, since: nat, limit: nat): (p: seq<Key>)
    requires SeqsSound(s, user)
    ensures Sorted(s.rows, p)
    ensures |p| == |Query(s, user, Topics, since, limit + 1)| + |Query(s, user, Cards, since, limit + 1)|
    ensures forall x :: x in p <==> x in Query(s, user, Topics, since, limit + 1) || x in Query(s, user, Cards, since, limit + 1)
  {
    var topics := Query(s, user, Topics, since, limit + 1);
    var cards := Query(s, user, Cards, since, limit + 1);
    TablesApart(s, user, since, topics, cards);
    SortKeysSorts(s.rows, topics + cards);
    SortKeys(s.rows, topics + cards)
  }

  lemma TablesApart(s: Server, user: Id, since: nat, topics: seq<Key>, cards: seq<Key>)
    requires SeqsSound(s, user) && Sorted(s.rows, topics) && Sorted(s.rows, cards)
    requires forall i :: 0 <= i < |topics| ==> topics[i] in Matching(s, user, Topics, since)
    requires forall i :: 0 <= i < |cards| ==> cards[i] in Matching(s, user, Cards, since)
    ensures var both := topics + cards;
      forall i, j :: 0 <= i < j < |both| ==> s.rows[both[i]].serverSeq != s.rows[both[j]].serverSeq
  {
    var both := topics + cards;
    forall i, j | 0 <= i < j < |both| ensures s.rows[both[i]].serverSeq != s.rows[both[j]].serverSeq {
      assert i < |topics| <= j ==> both[i].table != both[j].table;
    }
  }

  /** A key missing from a query that holds only smaller keys: the query is full. */
  lemma MissingMeansFull(rows: map<Key, Row>, ks: set<Key>, n: nat, q: seq<Key>, k: Key)
    requires LowestFirst(rows, ks, n, q) && k in ks && k !in q
    ensures |q| == n
  {
    ElementsCount(rows, q);
    assert Elements(q) <= ks;
    SubsetCount(Elements(q), ks);
  }

  /** A key that its own table's query of `limit + 1` missed lies above the first `limit` merged keys. */
  lemma MissedIsAbove(
    rows: map<Key, Row>, ks: set<Key>, limit: nat, q: seq<Key>, merged: seq<Key>, k: Key, i: nat)
    requires LowestFirst(rows, ks, limit + 1, q) && Sorted(rows, merged) && (forall x :: x in q ==> x in merged)
    requires k in ks && k in rows && k !in q && i < |merged| && i < limit
    ensures rows[merged[i]].serverSeq < rows[k].serverSeq
  {
    MissingMeansFull(rows, ks, limit + 1, q, k);
    if rows[merged[i]].serverSeq >= rows[k].serverSeq {
      // All limit + 1 keys of the query sit below position i of the merged list.
      var low := merged[..i];
      forall x | x in q ensures x in low {
        var a :| 0 <= a < |q| && q[a] == x;
        var j :| 0 <= j < |merged| && merged[j] == x;
        assert low[j] == x;
      }
      ElementsCount(rows, q);
      ElementsCount(rows, low);
      SubsetCount(Elements(q), Elements(low));
      assert false;
    }
  }

  /** Cutting the merge of two full-enough queries gives the lowest keys of both sets together. */
  lemma CutIsLowest(
    rows: map<Key, Row>, kt: set<Key>, kc: set<Key>, limit: nat, qt: seq<Key>, qc: seq<Key>, merged: seq<Key>)
    requires kt !! kc
    requires LowestFirst(rows, kt, limit + 1, qt) && LowestFirst(rows, kc, limit + 1, qc)
    requires Sorted(rows, merged) && |merged| == |qt| + |qc| && forall x :: x in merged <==> x in qt || x in qc
    ensures LowestFirst(rows, kt + kc, limit, Take(merged, limit))
    ensures |merged| > limit <==> |kt + kc| > limit
  {
    var page := Take(merged, limit);
    assert |kt + kc| == |kt| + |kc|;
    forall i | 0 <= i < |page| ensures page[i] in kt + kc {
      assert merged[i] in merged;
    }
    forall k, i | k in kt + kc && k in rows && k !in page && 0 <= i < |page|
      ensures rows[page[i]].serverSeq < rows[k].serverSeq
    {
      if k in qt || k in qc {
        var j :| 0 <= j < |merged| && merged[j] == k;
        TakeMembers(merged, limit);
      } else if k in kt {
        MissedIsAbove(rows, kt, limit, qt, merged, k, i);
      } else {
        MissedIsAbove(rows, kc, limit, qc, merged, k, i);
      }
    }
  }

  /** Merging and cutting the two queries gives the lowest rows of both tables together, and
      something is left over exactly when more than `limit` rows lie above the cursor. */
  lemma PagingRefinesSpec(s: Server, user: Id, since: nat, limit: nat)
    requires SeqsSound(s, user)
    ensures LowestFirst(s.rows, Above(s, user, since), limit, Take(Merged(s, user, since, limit), limit))
    ensures |Merged(s, user, since, limit)| > limit <==> |Above(s, user, since)| > limit
  {
    var kt, kc := Matching(s, user, Topics, since), Matching(s, user, Cards, since);
    assert Above(s, user, since) == kt + kc;
    CutIsLowest(s.rows, kt, kc, limit, Query(s, user, Topics, since, limit + 1),
      Query(s, user, Cards, since, limit + 1), Merged(s, user, since, limit));
  }

  // ----- the delivered page -----

  /** Topics before cards, each in sequence order. */
  function OfTable(p: seq<Key>, table: Table): seq<Key> {
    if p == [] then [] else (if p[0].table == table then [p[0]] else []) + OfTable(p[1..], table)
  }

  function Deliver(rows: map<Key, Row>, p: seq<Key>): (r: seq<PageRow>)
    requires forall x :: x in p ==> x in rows
    ensures |r| == |p| && forall i :: 0 <= i < |r| ==> r[i] == PageRow(p[i], rows[p[i]])
  {
    seq(|p|, i requires 0 <= i < |p| => PageRow(p[i], rows[p[i]]))
  }

  lemma {:induction false} OfTableElements(p: seq<Key>, table: Table)
    ensures forall x :: x in OfTable(p, table) <==> x in p && x.table == table
    decreases |p|
  {
    if p != [] {
      OfTableElements(p[1..], table);
      assert p == [p[0]] + p[1..];
    }
  }

  lemma {:induction false} OfTableSplits(p: seq<Key>)
    ensures multiset(OfTable(p, Topics)) + multiset(OfTable(p, Cards)) == multiset(p)
    ensures |OfTable(p, Topics)| + |OfTable(p, Cards)| == |p|
    decreases |p|
  {
    if p != [] {
      OfTableSplits(p[1..]);
      assert p == [p[0]] + p[1..];
      var other := if p[0].table.Topics? then Cards else Topics;
      assert OfTable(p, p[0].table) == [p[0]] + OfTable(p[1..], p[0].table);
      assert OfTable(p, other) == OfTable(p[1..], other);
    }
  }

  /** Records of a page of keys: topics first. */
  function TopicsFirst(rows: map<Key, Row>, p: seq<Key>): seq<PageRow>
    requires forall x :: x in p ==> x in rows
  {
    OfTableElements(p, Topics);
    OfTableElements(p, Cards);
    Deliver(rows, OfTable(p, Topics)) + Deliver(rows, OfTable(p, Cards))
  }

  function TopicKeysFirst(p: seq<Key>): seq<Key> { OfTable(p, Topics) + OfTable(p, Cards) }

  /** A list of topics before a list of cards: distinct if both are, and topics come first. */
  lemma TopicsThenCards(ts: seq<Key>, cs: seq<Key>)
    requires (forall k :: k in ts ==> k.table.Topics?) && (forall k :: k in cs ==> k.table.Cards?)
    requires (forall i, j :: 0 <= i < j < |ts| ==> ts[i] != ts[j]) && (forall i, j :: 0 <= i < j < |cs| ==> cs[i] != cs[j])
    ensures var ks := ts + cs;
      forall i, j :: 0 <= i < j < |ks| ==> ks[i] != ks[j] && (ks[i].table.Cards? ==> ks[j].table.Cards?)
  {
    var ks := ts + cs;
    forall i | 0 <= i < |ks| ensures ks[i].table.Topics? <==> i < |ts| {
      if i < |ts| { assert ts[i] in ts; } else { assert cs[i - |ts|] in cs; }
    }
  }

  lemma SortedIsDistinct(rows: map<Key, Row>, p: seq<Key>)
    requires Sorted(rows, p)
    ensures forall i, j :: 0 <= i < j < |p| ==> p[i] != p[j]
  {
  }

  lemma KeysPermute(rows: map<Key, Row>, p: seq<Key>)
    requires Sorted(rows, p)
    ensures var ks := TopicKeysFirst(p);
      && |ks| == |p| && (forall k :: k in ks <==> k in p)
      && (forall i, j :: 0 <= i < j < |ks| ==> ks[i] != ks[j] && (ks[i].table.Cards? ==> ks[j].table.Cards?))
  {
    var ts, cs := OfTable(p, Topics), OfTable(p, Cards);
    OfTableSplits(p);
    OfTableElements(p, Topics);
    OfTableElements(p, Cards);
    OfTableSorted(rows, p, Topics);
    OfTableSorted(rows, p, Cards);
    SortedIsDistinct(rows, ts);
    SortedIsDistinct(rows, cs);
    TopicsThenCards(ts, cs);
  }

  /** Topics-first delivery is a permutation of the page: each key once, with its stored row. */
  lemma TopicsFirstPermutes(rows: map<Key, Row>, p: seq<Key>)
    requires Sorted(rows, p)
    ensures var out := TopicsFirst(rows, p);
      && |out| == |p|
      && (forall r :: r in out <==> r.key in p && r.row == rows[r.key])
      && (forall i, j :: 0 <= i < j < |out| ==> out[i].key != out[j].key)
      && (forall i, j :: 0 <= i < j < |out| && out[i].key.table.Cards? ==> out[j].key.table.Cards?)
  {
    var ks := TopicKeysFirst(p);
    KeysPermute(rows, p);
    assert TopicsFirst(rows, p) == Deliver(rows, ks);
    forall r ensures r in Deliver(rows, ks) <==> r.key in p && r.row == rows[r.key] {
      DeliverMembers(rows, ks, r);
    }
  }

  lemma {:induction false} OfTableSorted(rows: map<Key, Row>, p: seq<Key>, table: Table)
    requires Sorted(rows, p)
    ensures Sorted(rows, OfTable(p, table))
    decreases |p|
  {
    if p != [] {
      OfTableSorted(rows, p[1..], table);
      OfTableElements(p[1..], table);
      var rest := OfTable(p[1..], table);
      forall i | 0 <= i < |rest| ensures rest[i] in rows && rows[p[0]].serverSeq < rows[rest[i]].serverSeq {
        assert rest[i] in rest;
        var j :| 0 <= j < |p[1..]| && p[1..][j] == rest[i];
        assert p[j + 1] == rest[i];
      }
    }
  }

  /** The answer made of the keys of a page. */
  function PageOf(rows: map<Key, Row>, since: nat, p: seq<Key>, more: bool): Page
    requires forall x :: x in p ==> x in rows
  {
    Page(TopicsFirst(rows, p), if p == [] then since else rows[p[|p| - 1]].serverSeq, more)
  }

  /** The first `limit` merged keys. */
  function PageKeys(s: Server, user: Id, since: nat, limit: nat): (p: seq<Key>)
    requires SeqsSound(s, user)
    ensures forall x :: x in p ==> x in s.rows
  {
    var merged := Merged(s, user, since, limit);
    var p := Take(merged, limit);
    assert forall x :: x in p ==> x in merged;
    assert forall x :: x in merged ==> x in s.rows;
    p
  }

  function PullPage(s: Server, user: Id, since: nat, limit: nat): Page
    requires SeqsSound(s, user)
  {
    PageOf(s.rows, since, PageKeys(s, user, since, limit), |Merged(s, user, since, limit)| > limit)
  }

  /** What one pull delivers: exactly the user's rows above the cursor up to the watermark, as
      stored, each once; the rest is announced by `more`, which always comes with progress. */
  lemma PageIsComplete(s: Server, user: Id, since: nat, limit: nat)
    requires SeqsSound(s, user)
    ensures var page := PullPage(s, user, since, limit);
      && since <= page.watermark <= Max(since, SeqOf(s, user))
      && (forall r :: r in page.records <==>
            r.key in s.rows && s.rows[r.key] == r.row && r.row.owner == user && since < r.row.serverSeq <= page.watermark)
      && (forall i, j :: 0 <= i < j < |page.records| ==> page.records[i].key != page.records[j].key)
      && (page.more && limit >= 1 ==> page.watermark > since)
      && (!page.more ==> forall k :: k in Above(s, user, since) ==> s.rows[k].serverSeq <= page.watermark)
      && (page.more <==> |Above(s, user, since)| > limit)
      && |page.records| == Min(limit, |Above(s, user, since)|)
  {
    PagingRefinesSpec(s, user, since, limit);
    PageOfLowest(s, user, since, limit, PageKeys(s, user, since, limit), PullPage(s, user, since, limit));
  }

  /** The watermark is the cursor itself or the sequence of a delivered row. */
  lemma WatermarkIsDelivered(s: Server, user: Id, since: nat, limit: nat)
    requires SeqsSound(s, user)
    ensures var page := PullPage(s, user, since, limit);
      page.watermark == since || exists r :: r in page.records && r.row.serverSeq == page.watermark
  {
    PagingRefinesSpec(s, user, since, limit);
    var p := PageKeys(s, user, since, limit);
    if p != [] { LastIsDelivered(s.rows, p); }
  }

  lemma LastIsDelivered(rows: map<Key, Row>, p: seq<Key>)
    requires Sorted(rows, p) && p != [] && forall x :: x in p ==> x in rows
    ensures exists r :: r in TopicsFirst(rows, p) && r.row.serverSeq == rows[p[|p| - 1]].serverSeq
  {
    TopicsFirstPermutes(rows, p);
    var k := p[|p| - 1];
    var r := PageRow(k, rows[k]);
    assert r.key in p && r.row == rows[r.key];
    assert r in TopicsFirst(rows, p);
  }

  lemma PageOfLowest(s: Server, user: Id, since: nat, limit: nat, p: seq<Key>, page: Page)
    requires SeqsSound(s, user) && LowestFirst(s.rows, Above(s, user, since), limit, p)
    requires forall x :: x in p ==> x in s.rows
    requires page.records == TopicsFirst(s.rows, p)
    requires page.watermark == if p == [] then since else s.rows[p[|p| - 1]].serverSeq
    requires page.more <==> |Above(s, user, since)| > limit
    ensures since <= page.watermark <= Max(since, SeqOf(s, user))
    ensures forall r :: r in page.records <==>
      r.key in s.rows && s.rows[r.key] == r.row && r.row.owner == user && since < r.row.serverSeq <= page.watermark
    ensures forall i, j :: 0 <= i < j < |page.records| ==> page.records[i].key != page.records[j].key
    ensures page.more && limit >= 1 ==> page.watermark > since
    ensures !page.more ==> forall k :: k in Above(s, user, since) ==> s.rows[k].serverSeq <= page.watermark
    ensures |page.records| == Min(limit, |Above(s, user, since)|)
  {
    TopicsFirstPermutes(s.rows, p);
    LowestCovers(s, user, since, limit, p);
  }

  /** The keys of a lowest-first page are those up to its last sequence. */
  lemma LowestCovers(s: Server, user: Id, since: nat, limit: nat, p: seq<Key>)
    requires LowestFirst(s.rows, Above(s, user, since), limit, p)
    ensures var w := if p == [] then since else s.rows[p[|p| - 1]].serverSeq;
      && (p == [] || since < w <= SeqOf(s, user) || !SeqsSound(s, user))
      && (limit >= 1 && p == [] ==> Above(s, user, since) == {})
      && (forall k :: k in p <==> k in Above(s, user, since) && s.rows[k].serverSeq <= w)
      && (|Above(s, user, since)| <= limit ==> forall k :: k in Above(s, user, since) ==> k in p)
  {
    var ks := Above(s, user, since);
    forall k | k in p ensures k in ks && s.rows[k].serverSeq <= s.rows[p[|p| - 1]].serverSeq {
      var i :| 0 <= i < |p| && p[i] == k;
    }
    if p != [] {
      assert p[|p| - 1] in ks;
    }
    if |ks| <= limit {
      ElementsCount(s.rows, p);
      assert Elements(p) <= ks;
      SubsetCount(Elements(p), ks);
    }
  }

  lemma DeliverMembers(rows: map<Key, Row>, p: seq<Key>, r: PageRow)
    requires forall x :: x in p ==> x in rows
    ensures r in Deliver(rows, p) <==> r.key in p && r.row == rows[r.key]
  {
    if r.key in p && r.row == rows[r.key] {
      var i :| 0 <= i < |p| && p[i] == r.key;
      assert Deliver(rows, p)[i] == r;
    }
  }
}
