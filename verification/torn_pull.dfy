// The two queries of a pull are started together and may be answered in either order. When an apply
// commits in between, the page mixes two states: what exactly it then misses.

module TornPull {
  import opened SyncTypes
  import opened ServerApply
  import opened Paging

  /** What the two queries see: the table read first as of `s1`, the other as of the later `s2`. */
  function Torn(s1: Server, s2: Server, first: Table): Server {
    s2.(rows := map k | k in s1.rows.Keys + s2.rows.Keys && (if k.table == first then k in s1.rows else k in s2.rows) ::
                  if k.table == first then s1.rows[k] else s2.rows[k])
  }

  /** A row of the mix is one of the earlier state, or of the later table and written since. */
  lemma TornRow(s1: Server, user: Id, s2: Server, first: Table, k: Key)
    requires Advances(s1, user, s2) && SeqsSound(s1, user)
    requires var torn := Torn(s1, s2, first); k in torn.rows && torn.rows[k].owner == user
    ensures var torn := Torn(s1, s2, first);
      && torn.rows[k].serverSeq <= SeqOf(torn, user)
      && ((k in s1.rows && torn.rows[k] == s1.rows[k])
          || (k.table != first && k in s2.rows && torn.rows[k] == s2.rows[k] && torn.rows[k].serverSeq > SeqOf(s1, user)))
  {
  }

  lemma TornIsSound(s1: Server, user: Id, s2: Server, first: Table)
    requires Advances(s1, user, s2) && SeqsSound(s1, user)
    ensures SeqsSound(Torn(s1, s2, first), user)
  {
    var torn := Torn(s1, s2, first);
    forall k | k in torn.rows && torn.rows[k].owner == user ensures torn.rows[k].serverSeq <= SeqOf(torn, user) {
      TornRow(s1, user, s2, first, k);
    }
    forall j, k | j in torn.rows && k in torn.rows && torn.rows[j].owner == user && torn.rows[k].owner == user
                  && torn.rows[j].serverSeq == torn.rows[k].serverSeq
      ensures j == k
    {
      TornRow(s1, user, s2, first, j);
      TornRow(s1, user, s2, first, k);
    }
  }

  /** The row was written between the two reads, or did not exist at the first. */
  predicate ChangedBetween(s1: Server, s2: Server, k: Key)
    requires k in s2.rows
  {
    k !in s1.rows || s1.rows[k] != s2.rows[k]
  }

  lemma PageHasExactly(s: Server, user: Id, since: nat, limit: nat, r: PageRow)
    requires SeqsSound(s, user)
    ensures var page := PullPage(s, user, since, limit);
      r in page.records
      <==> (r.key in s.rows && s.rows[r.key] == r.row && r.row.owner == user && since < r.row.serverSeq <= page.watermark)
  {
    PageIsComplete(s, user, since, limit);
  }

  /** The answer of a pull whose queries see two states. */
  ghost function TornPage(s1: Server, user: Id, s2: Server, first: Table, since: nat, limit: nat): Page
    requires Advances(s1, user, s2) && SeqsSound(s1, user)
  {
    TornIsSound(s1, user, s2, first);
    PullPage(Torn(s1, s2, first), user, since, limit)
  }

  /** Of the rows that are stored when the pull ends and that its cursor passes, the page has exactly
      those that are not rows of the table read first written between the two reads. */
  lemma TornPageHasIff(s1: Server, user: Id, s2: Server, first: Table, since: nat, limit: nat, k: Key)
    requires Advances(s1, user, s2) && SeqsSound(s1, user)
    requires k in s2.rows && s2.rows[k].owner == user && since < s2.rows[k].serverSeq
    ensures var page := TornPage(s1, user, s2, first, since, limit);
      s2.rows[k].serverSeq <= page.watermark ==>
        (PageRow(k, s2.rows[k]) in page.records <==> !(k.table == first && ChangedBetween(s1, s2, k)))
  {
    TornIsSound(s1, user, s2, first);
    PageHasExactly(Torn(s1, s2, first), user, since, limit, PageRow(k, s2.rows[k]));
  }

  /** Nothing is missed, whichever query comes first, exactly when no row of the table read first that
      was written in between lies at or below the watermark. */
  lemma NothingMissedIff(s1: Server, user: Id, s2: Server, first: Table, since: nat, limit: nat)
    requires Advances(s1, user, s2) && SeqsSound(s1, user)
    ensures var page := TornPage(s1, user, s2, first, since, limit);
      (forall k :: k in Above(s2, user, since) && s2.rows[k].serverSeq <= page.watermark ==> PageRow(k, s2.rows[k]) in page.records)
      <==> (forall k :: k in Above(s2, user, since) && k.table == first && ChangedBetween(s1, s2, k) ==>
              s2.rows[k].serverSeq > page.watermark)
  {
    forall k | k in Above(s2, user, since)
      ensures var page := TornPage(s1, user, s2, first, since, limit);
        s2.rows[k].serverSeq <= page.watermark ==>
          (PageRow(k, s2.rows[k]) in page.records <==> !(k.table == first && ChangedBetween(s1, s2, k)))
    {
      TornPageHasIff(s1, user, s2, first, since, limit, k);
    }
  }

  /** Seen from one state there is nothing to miss: with both queries on one snapshot every row the
      cursor passes is in the page. */
  lemma OneSnapshotMissesNothing(s: Server, user: Id, since: nat, limit: nat, k: Key)
    requires SeqsSound(s, user) && k in s.rows && s.rows[k].owner == user && since < s.rows[k].serverSeq
    ensures s.rows[k].serverSeq <= PullPage(s, user, since, limit).watermark ==>
              PageRow(k, s.rows[k]) in PullPage(s, user, since, limit).records
  {
    PageHasExactly(s, user, since, limit, PageRow(k, s.rows[k]));
  }

  // ----- two concrete pairs of states -----

  const OLD := Row("u", TopicBody("old", 0, "[]", 0, Some(false)), 4, None, 1)
  const TOPIC := Row("u", TopicBody("t", 0, "[]", 0, Some(false)), 5, None, 2)
  const CARD := Row("u", CardBody("O", 1, "{}", None), 6, None, 3)
  const LATE_CARD := Row("u", CardBody("O", 1, "{}", None), 5, None, 2)
  const LATE_TOPIC := Row("u", TopicBody("t", 0, "[]", 0, Some(false)), 6, None, 3)

  const EARLIER := Server(map[Key(Topics, "O") := OLD], map["u" := 1], {}, map[])
  const TOPIC_THEN_CARD := EARLIER.(
    rows := map[Key(Topics, "O") := OLD, Key(Topics, "T") := TOPIC, Key(Cards, "c") := CARD], seqs := map["u" := 3])
  const CARD_THEN_TOPIC := EARLIER.(
    rows := map[Key(Topics, "O") := OLD, Key(Cards, "c") := LATE_CARD, Key(Topics, "T") := LATE_TOPIC], seqs := map["u" := 3])

  /** One row lies above the cursor in the mix: the page is that row. */
  lemma OnlyRow(s: Server, k: Key)
    requires SeqsSound(s, "u") && k in s.rows && Above(s, "u", 1) == {k}
    ensures var page := PullPage(s, "u", 1, 500);
      page.watermark >= s.rows[k].serverSeq && forall r :: r in page.records ==> r.key == k
  {
    PageIsComplete(s, "u", 1, 500);
    OnlyRowOf(s, k, PullPage(s, "u", 1, 500));
  }

  lemma OnlyRowOf(s: Server, k: Key, page: Page)
    requires k in s.rows && Above(s, "u", 1) == {k}
    requires forall r :: r in page.records ==> r.key in s.rows && s.rows[r.key] == r.row && r.row.owner == "u" && 1 < r.row.serverSeq
    requires !page.more ==> forall k :: k in Above(s, "u", 1) ==> s.rows[k].serverSeq <= page.watermark
    requires page.more ==> |Above(s, "u", 1)| > 500
    ensures page.watermark >= s.rows[k].serverSeq && forall r :: r in page.records ==> r.key == k
  {
    assert k in Above(s, "u", 1);
    forall r | r in page.records ensures r.key == k {
      assert r.key in Above(s, "u", 1);
    }
  }

  lemma TopicThenCardAdvances()
    ensures Advances(EARLIER, "u", TOPIC_THEN_CARD) && SeqsSound(EARLIER, "u")
  {
    var rows := TOPIC_THEN_CARD.rows;
    assert rows[Key(Topics, "O")] == OLD && rows[Key(Topics, "T")] == TOPIC && rows[Key(Cards, "c")] == CARD;
  }

  lemma CardThenTopicAdvances()
    ensures Advances(EARLIER, "u", CARD_THEN_TOPIC) && SeqsSound(EARLIER, "u")
  {
    var rows := CARD_THEN_TOPIC.rows;
    assert rows[Key(Topics, "O")] == OLD && rows[Key(Topics, "T")] == LATE_TOPIC && rows[Key(Cards, "c")] == LATE_CARD;
  }

  lemma TopicThenCard()
    ensures var torn := Torn(EARLIER, TOPIC_THEN_CARD, Topics);
      Above(torn, "u", 1) == {Key(Cards, "c")} && torn.rows[Key(Cards, "c")] == CARD
  {
    assert Torn(EARLIER, TOPIC_THEN_CARD, Topics).rows == map[Key(Topics, "O") := OLD, Key(Cards, "c") := CARD];
  }

  lemma CardThenTopic()
    ensures var torn := Torn(EARLIER, CARD_THEN_TOPIC, Cards);
      Above(torn, "u", 1) == {Key(Topics, "T")} && torn.rows[Key(Topics, "T")] == LATE_TOPIC
  {
    assert Torn(EARLIER, CARD_THEN_TOPIC, Cards).rows == map[Key(Topics, "O") := OLD, Key(Topics, "T") := LATE_TOPIC];
  }

  /** Topics are read first; a topic and then a card commit: the cursor moves past the topic, and the
      topic is not in the page. */
  lemma TopicSkipped()
    ensures Advances(EARLIER, "u", TOPIC_THEN_CARD) && SeqsSound(EARLIER, "u")
    ensures var page := TornPage(EARLIER, "u", TOPIC_THEN_CARD, Topics, 1, 500);
      page.watermark >= TOPIC.serverSeq && forall r :: r in page.records ==> r.key != Key(Topics, "T")
  {
    TopicThenCardAdvances();
    TopicThenCard();
    TornIsSound(EARLIER, "u", TOPIC_THEN_CARD, Topics);
    OnlyRow(Torn(EARLIER, TOPIC_THEN_CARD, Topics), Key(Cards, "c"));
  }

  /** Cards are read first; a card and then a topic commit: the card is skipped in the same way. */
  lemma CardSkipped()
    ensures Advances(EARLIER, "u", CARD_THEN_TOPIC) && SeqsSound(EARLIER, "u")
    ensures var page := TornPage(EARLIER, "u", CARD_THEN_TOPIC, Cards, 1, 500);
      page.watermark >= LATE_CARD.serverSeq && forall r :: r in page.records ==> r.key != Key(Cards, "c")
  {
    CardThenTopicAdvances();
    CardThenTopic();
    TornIsSound(EARLIER, "u", CARD_THEN_TOPIC, Cards);
    OnlyRow(Torn(EARLIER, CARD_THEN_TOPIC, Cards), Key(Topics, "T"));
  }
}
