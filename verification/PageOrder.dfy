/** In which order a reader gets the cards, said of the rows and videos themselves. */
module PageOrder {
  import opened Wrappers
  import opened Orders
  import opened Collection
  import opened MembershipSafety
  import opened Paging
  import opened SnapshotReads
  import opened SnapshotPlaces
  import opened SnapshotSafety

  /** The card of row `k` may come before the card of row `l`: newer favourites come first; of equal
      times the one further up in its source; then the one discovered later; then the one with the
      higher video number; then the one of the older source. */
  ghost predicate MayPrecede(db: Db, k: Place, l: Place, snapshot: nat)
    requires k in db.rows && k.bvid in db.videos && l in db.rows && l.bvid in db.videos
  {
    var p, q := SnapshotPosition(db.rows, k, snapshot), SnapshotPosition(db.rows, l, snapshot);
    var v, w := db.videos[k.bvid], db.videos[l.bvid];
    var t, u := CardTime(db.rows[k], v), CardTime(db.rows[l], w);
    && t >= u
    && (t == u ==> p <= q)
    && (t == u && p == q ==> v.discovered >= w.discovered)
    && (t == u && p == q && v.discovered == w.discovered ==> v.id >= w.id)
    && (t == u && p == q && v.discovered == w.discovered && v.id == w.id ==> k.source <= l.source)
  }

  /** What stands first on a card: its favourite time when it has one, else the time its video is
      shown with, else when it was first seen. */
  lemma {:induction false} TimeOfCard(r: Row, v: Video)
    ensures r.favorite.Some? ==> CardTime(r, v) == r.favorite.value
    ensures r.favorite.None? && v.display.Some? ==> CardTime(r, v) == v.display.value
    ensures r.favorite.None? && v.display.None? ==> CardTime(r, v) == r.observed
  {
  }

  ghost predicate CardOf(db: Db, q: Query, k: Place, snapshot: nat, key: Key) {
    Shown(db, q, k, snapshot) && KeyOf(db, k, snapshot) == key
  }

  lemma {:induction false} RowOfCard(db: Db, q: Query, snapshot: nat, key: Key) returns (k: Place)
    requires key in Cards(db, q, snapshot)
    ensures CardOf(db, q, k, snapshot, key)
  {
    k :| k in db.rows && Shown(db, q, k, snapshot) && KeyOf(db, k, snapshot) == key;
  }

  /** Every listing of cards, and so every sequence of pages, is in that order. */
  lemma {:induction false} ListingIsInOrder(db: Db, q: Query, snapshot: nat, i: nat, j: nat) returns (k: Place, l: Place)
    requires i < j < |Listing(Cards(db, q, snapshot))|
    ensures var list := Listing(Cards(db, q, snapshot));
      && CardOf(db, q, k, snapshot, list[i]) && CardOf(db, q, l, snapshot, list[j])
      && MayPrecede(db, k, l, snapshot)
  {
    var list := Listing(Cards(db, q, snapshot));
    assert list[i] in Elements(list) && list[j] in Elements(list);
    k := RowOfCard(db, q, snapshot, list[i]);
    l := RowOfCard(db, q, snapshot, list[j]);
    hide Cards, Listing, SnapshotPosition, CardTime;
  }

  /** What a reader gets between scans, from the snapshot at the start on: any two cards, of one page
      or of two, come in that order, by the rows of the snapshot. */
  lemma {:induction false} ReaderGetsOrder(pre: seq<Op>, ops: seq<Op>, q: Query, size: nat, at: seq<nat>, pages: seq<Page>, i: nat, j: nat)
    returns (k: Place, l: Place)
    requires DistinctScans(pre) && size > 0
    requires var db := After(EMPTY, pre); Timed(db, db.highwater) && Syncs(db, ops) && AllUntied(db, ops)
    requires Reads(After(EMPTY, pre), ops, q, size, at, pages) && pages != [] && !pages[|pages| - 1].hasNext
    requires i < j < |Items(pages)|
    ensures var db := After(EMPTY, pre);
      && CardOf(db, q, k, db.highwater, Items(pages)[i]) && CardOf(db, q, l, db.highwater, Items(pages)[j])
      && MayPrecede(db, k, l, db.highwater)
      && db.rows[k].favorite.Some? && db.rows[l].favorite.Some? && db.rows[k].favorite.value >= db.rows[l].favorite.value
  {
    var db := After(EMPTY, pre);
    ReaderSeesSnapshot(pre, ops, q, size, at, pages);
    k, l := ListingIsInOrder(db, q, db.highwater, i, j);
  }

  // ---- which cards there are -------------------------------------------------------------------

  /** The row has a card: a source holds the video, and the snapshot knows the row. */
  predicate HasCard(db: Db, k: Place, snapshot: nat) {
    && k in db.rows && db.rows[k].linked && !db.rows[k].removed && db.rows[k].number <= snapshot && k.bvid in db.videos
  }

  /** In a sound collection a key belongs to one row. */
  lemma {:induction false} KeyTellsRow(db: Db, k: Place, l: Place, snapshot: nat)
    requires Named(db) && HasCard(db, k, snapshot) && HasCard(db, l, snapshot) && KeyOf(db, k, snapshot) == KeyOf(db, l, snapshot)
    ensures k == l
  {
    hide SnapshotPosition, CardTime;
  }

  /** Every card stands in the feed or in the archive, never in both; the marked and the noted ones are
      those of the feed whose videos are marked or noted. */
  lemma {:induction false} ViewsSplit(db: Db, k: Place, snapshot: nat)
    requires Sound(db) && HasCard(db, k, snapshot)
    ensures var key, v := KeyOf(db, k, snapshot), db.videos[k.bvid];
      var feed, archive := Cards(db, Query(Feed, None), snapshot), Cards(db, Query(Archived, None), snapshot);
      && (key in archive <==> v.archived) && (key in feed <==> key !in archive)
      && (key in Cards(db, Query(Marked, None), snapshot) <==> key in feed && v.marked)
      && (key in Cards(db, Query(Noted, None), snapshot) <==> key in feed && v.noted)
  {
    forall view: View ensures KeyOf(db, k, snapshot) in Cards(db, Query(view, None), snapshot) <==> Shown(db, Query(view, None), k, snapshot) {
      CardIff(db, Query(view, None), k, snapshot);
    }
    hide Cards;
  }

  /** The cards of a source are those of its rows, in every view. */
  lemma {:induction false} SourceSplit(db: Db, k: Place, view: View, s: nat, snapshot: nat)
    requires Sound(db) && HasCard(db, k, snapshot)
    ensures var key := KeyOf(db, k, snapshot);
      key in Cards(db, Query(view, Some(s)), snapshot) <==> key in Cards(db, Query(view, None), snapshot) && k.source == s
  {
    CardIff(db, Query(view, Some(s)), k, snapshot);
    CardIff(db, Query(view, None), k, snapshot);
    hide Cards;
  }

  lemma {:induction false} CardIff(db: Db, q: Query, k: Place, snapshot: nat)
    requires Named(db) && HasCard(db, k, snapshot)
    ensures KeyOf(db, k, snapshot) in Cards(db, q, snapshot) <==> Shown(db, q, k, snapshot)
  {
    if KeyOf(db, k, snapshot) in Cards(db, q, snapshot) {
      var l := RowOfCard(db, q, snapshot, KeyOf(db, k, snapshot));
      KeyTellsRow(db, k, l, snapshot);
    }
  }

  /** Nothing else has a card. */
  lemma {:induction false} OnlyTheseCards(db: Db, q: Query, snapshot: nat, key: Key) returns (k: Place)
    requires key in Cards(db, q, snapshot)
    ensures HasCard(db, k, snapshot) && KeyOf(db, k, snapshot) == key
  {
    k := RowOfCard(db, q, snapshot, key);
  }

  // ---- two times -------------------------------------------------------------------------------

  const SOURCE := Source(FutureOnly, None, false, false, None, Active)
  const OLD := Item("a", Some(5))
  const NEW := Item("b", Some(9))

  /** The older favourite is listed first. */
  const RUN: seq<Op> := [AddSource(0, SOURCE), ScanSnapshot(0, [OLD, NEW], true, 1)]

  function Fresh(number: nat, position: int, time: int): Row {
    Row(number, true, Some(time), position, false, false, false, 1)
  }

  /** A scan meets a new item. */
  lemma {:induction false} NewTurn(c: Db, known: map<Place, Row>, item: Item, time: int, n: nat)
    requires item.favorite == Some(time) && time > 0
    requires Place(0, item.bvid) !in known && Place(0, item.bvid) !in c.rows && item.bvid !in c.videos
    ensures var d := SnapshotStep(c, known, 0, item, n, 1);
      && d.rows == c.rows[Place(0, item.bvid) := Fresh(c.highwater + 1, n, time)]
      && d.videos == c.videos[item.bvid := Video(c.nextId, false, false, false, false, Some(time), 1)]
      && d.highwater == c.highwater + 1 && d.nextId == c.nextId + 1 && d.sources == c.sources
  {
  }

  ghost predicate TwoTimes(d: Db) {
    && d.rows == map[Place(0, "a") := Fresh(1, 0, 5), Place(0, "b") := Fresh(2, 1, 9)]
    && d.videos == map["a" := Video(0, false, false, false, false, Some(5), 1), "b" := Video(1, false, false, false, false, Some(9), 1)]
    && d.highwater == 2
  }

  lemma {:induction false} ScanTurns(d: Db) returns (f: Db)
    requires d.rows == map[] && d.videos == map[] && d.highwater == 0 && d.nextId == 0
    ensures f == SnapshotAll(d, d.rows, 0, [OLD, NEW], 1) && TwoTimes(f)
  {
    assert [OLD, NEW][..1] == [OLD] && [OLD][..0] == [];
    NewTurn(d, d.rows, OLD, 5, 0);
    var c := SnapshotStep(d, d.rows, 0, OLD, 0, 1);
    assert SnapshotAll(d, d.rows, 0, [OLD], 1) == c;
    hide SnapshotStep;
    NewTurn(c, d.rows, NEW, 9, 1);
    f := SnapshotStep(c, d.rows, 0, NEW, 1, 1);
  }

  lemma {:induction false} SweepLeaves(f: Db)
    requires TwoTimes(f)
    ensures TwoTimes(Sweep(f, 0, Ids([OLD, NEW])))
  {
    assert "a" in Ids([OLD, NEW]) && "b" in Ids([OLD, NEW]) by {
      assert [OLD, NEW][0].bvid == "a" && [OLD, NEW][1].bvid == "b";
    }
    var rows := Unlisted(f.rows, 0, Ids([OLD, NEW]));
    assert rows == f.rows;
    assert Held(rows, "a") by { assert Place(0, "a") in rows; }
    assert Held(rows, "b") by { assert Place(0, "b") in rows; }
  }

  lemma {:induction false} RunLeaves()
    ensures TwoTimes(After(EMPTY, RUN))
  {
    hide After, Apply, Snapshot, TwoTimes;
    var a, b := RUN[0], RUN[1];
    assert RUN == [a] + [b] && [a] == [] + [a];
    AfterSnoc(EMPTY, [], a);
    AfterSnoc(EMPTY, [a], b);
    StartIsEmpty();
    var d := OneSource();
    ScanLeaves(d);
    ScanApplies(d, [OLD, NEW]);
  }

  lemma {:induction false} StartIsEmpty()
    ensures After(EMPTY, []) == EMPTY
  {
  }

  lemma {:induction false} OneSource() returns (d: Db)
    ensures d == Apply(EMPTY, AddSource(0, SOURCE))
    ensures d.rows == map[] && d.videos == map[] && d.highwater == 0 && d.nextId == 0 && 0 in d.sources
  {
    d := Apply(EMPTY, AddSource(0, SOURCE));
  }

  lemma {:induction false} ScanApplies(d: Db, items: seq<Item>)
    requires 0 in d.sources
    ensures Apply(d, ScanSnapshot(0, items, true, 1)) == Snapshot(d, 0, items, true, 1)
  {
    hide Snapshot;
  }

  lemma {:induction false} ScanLeaves(d: Db)
    requires d.rows == map[] && d.videos == map[] && d.highwater == 0 && d.nextId == 0 && 0 in d.sources
    ensures TwoTimes(Snapshot(d, 0, [OLD, NEW], true, 1))
  {
    hide SnapshotAll, Sweep;
    var f := ScanTurns(d);
    SweepLeaves(f);
  }

  /** Two favourites, the older one listed first and discovered first: the first page of one card is
      the newer one. */
  lemma {:induction false} NewestComesFirst()
    ensures var db := After(EMPTY, RUN); var page := ReadPage(db, Query(Feed, None), None, 1);
      page.hasNext && |page.items| == 1 && CardOf(db, Query(Feed, None), Place(0, "b"), db.highwater, page.items[0])
  {
    RunLeaves();
    FirstCard(After(EMPTY, RUN));
  }

  lemma {:induction false} FirstCard(db: Db)
    requires TwoTimes(db)
    ensures var page := ReadPage(db, Query(Feed, None), None, 1);
      page.hasNext && |page.items| == 1 && CardOf(db, Query(Feed, None), Place(0, "b"), db.highwater, page.items[0])
  {
    var q, a, b := Query(Feed, None), Place(0, "a"), Place(0, "b");
    assert Shown(db, q, a, 2) && Shown(db, q, b, 2);
    var x, y := KeyOf(db, b, 2), KeyOf(db, a, 2);
    assert Cards(db, q, 2) == {x, y} by {
      assert forall k :: k in db.rows ==> k == a || k == b;
    }
    assert Above(x, y);
    ListingOfTwo(Cards(db, q, 2), x, y);
  }

  lemma {:induction false} ListingOfTwo(cards: set<Key>, x: Key, y: Key)
    requires cards == {x, y} && Above(x, y)
    ensures Listing(cards) == [x, y]
  {
    var list := [x, y];
    AboveIsStrict(cards);
    assert Listed(list);
    assert forall k :: k in Listing(cards) <==> k in Elements(Listing(cards));
    SortedUnique(Above, Listing(cards), list, cards);
  }
}
