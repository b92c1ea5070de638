/** A run after which two rows share a stored position, and a reader who never sees a card. */
module SnapshotTies {
  import opened Wrappers
  import opened Orders
  import opened Collection
  import opened MembershipSafety
  import opened Paging
  import opened SnapshotReads
  import opened SnapshotPlaces
  import opened SnapshotSafety

  const SOURCE := Source(FutureOnly, None, false, false, None, Active)
  const A := Item("a", Some(5))
  const B := Item("b", Some(5))
  const C := Item("c", Some(5))

  /** A baseline of the empty source, a complete scan, and an incomplete one. */
  const PRE: seq<Op> := [AddSource(0, SOURCE), ScanBaseline(0, [], true, 1), ScanSnapshot(0, [A, B], true, 1), ScanSnapshot(0, [C, A], false, 1)]

  const SCAN: seq<Item> := [C, A, B]

  // ---- the states ------------------------------------------------------------------------------

  function Shelf(number: nat, position: int): Row {
    Row(number, true, Some(5), position, false, false, false, 1)
  }

  function Film(id: nat): Video {
    Video(id, false, false, false, false, Some(5), 1)
  }

  ghost predicate AfterComplete(d: Db) {
    && d.rows == map[Place(0, "a") := Shelf(1, 0), Place(0, "b") := Shelf(2, 1)]
    && d.videos == map["a" := Film(0), "b" := Film(1)] && d.highwater == 2 && d.nextId == 2
    && 0 in d.sources && d.sources[0].status == Active
  }

  /** The incomplete scan moved a down to b. */
  ghost predicate Tied(d: Db) {
    && d.rows == map[Place(0, "a") := Shelf(1, 1), Place(0, "b") := Shelf(2, 1), Place(0, "c") := Shelf(3, 0)]
    && d.videos == map["a" := Film(0), "b" := Film(1), "c" := Film(2)] && d.highwater == 3
    && 0 in d.sources && d.sources[0].status == Active
  }

  /** The next complete scan moved b down. */
  ghost predicate Parted(d: Db) {
    && d.rows == map[Place(0, "a") := Shelf(1, 1), Place(0, "b") := Shelf(2, 2), Place(0, "c") := Shelf(3, 0)]
    && d.videos == map["a" := Film(0), "b" := Film(1), "c" := Film(2)]
  }

  // ---- the turns of the scans ------------------------------------------------------------------

  /** A scan meets a new item. */
  lemma {:induction false} NewTurn(c: Db, known: map<Place, Row>, item: Item, n: nat)
    requires item.favorite == Some(5) && Place(0, item.bvid) !in known && Place(0, item.bvid) !in c.rows && item.bvid !in c.videos
    ensures var d := SnapshotStep(c, known, 0, item, n, 1);
      && d.rows == c.rows[Place(0, item.bvid) := Shelf(c.highwater + 1, n)]
      && d.videos == c.videos[item.bvid := Film(c.nextId)]
      && d.highwater == c.highwater + 1 && d.nextId == c.nextId + 1 && d.sources == c.sources
  {
  }

  /** A scan meets a known item. */
  lemma {:induction false} KnownTurn(c: Db, known: map<Place, Row>, item: Item, n: nat, now: int)
    requires var k := Place(0, item.bvid);
      item.favorite == Some(5) && k in known && known[k].linked && !known[k].removed && k in c.rows && c.rows[k].linked && c.rows[k].favorite == Some(5)
    requires item.bvid in c.videos && c.videos[item.bvid].display == Some(5) && !c.videos[item.bvid].removed && !c.rows[Place(0, item.bvid)].removed
    ensures var d, k := SnapshotStep(c, known, 0, item, n, now), Place(0, item.bvid);
      && d.rows == c.rows[k := c.rows[k].(position := n)] && d.videos == c.videos
      && d.highwater == c.highwater && d.nextId == c.nextId && d.sources == c.sources
  {
    var v := c.videos[item.bvid];
    assert v.(removed := false, display := Some(5)) == v;
    assert c.videos[item.bvid := v] == c.videos;
  }

  lemma {:induction false} ScanOfTwo(d: Db, known: map<Place, Row>, x: Item, y: Item, now: int)
    ensures SnapshotAll(d, known, 0, [x, y], now) == SnapshotStep(SnapshotStep(d, known, 0, x, 0, now), known, 0, y, 1, now)
  {
    assert [x, y][..1] == [x] && [x][..0] == [];
    assert SnapshotAll(d, known, 0, [x], now) == SnapshotStep(d, known, 0, x, 0, now);
  }

  lemma {:induction false} ScanOfThree(d: Db, known: map<Place, Row>, x: Item, y: Item, z: Item, now: int)
    ensures SnapshotAll(d, known, 0, [x, y, z], now) ==
            SnapshotStep(SnapshotStep(SnapshotStep(d, known, 0, x, 0, now), known, 0, y, 1, now), known, 0, z, 2, now)
  {
    hide SnapshotStep;
    assert [x, y, z][..2] == [x, y];
    ScanOfTwo(d, known, x, y, now);
  }

  /** A complete scan that lists every row and whose videos are all held sweeps nothing. */
  lemma {:induction false} SweepIsIdle(e: Db, items: seq<Item>)
    requires forall k :: k in e.rows ==> k.source == 0 && k.bvid in Ids(items) && e.rows[k].linked && !e.rows[k].removed
    requires forall b :: b in e.videos ==> !e.videos[b].removed && Place(0, b) in e.rows
    ensures Sweep(e, 0, Ids(items)).rows == e.rows && Sweep(e, 0, Ids(items)).videos == e.videos
  {
    var rows := Unlisted(e.rows, 0, Ids(items));
    assert rows == e.rows;
    forall b | b in e.videos ensures Recomputed(e.videos, rows, 0)[b] == e.videos[b] {
      assert Held(rows, b) by {
        assert Place(0, b) in rows;
      }
    }
  }

  /** What is left of such a scan once its items are dealt with. */
  lemma {:induction false} CompleteEnds(d: Db, items: seq<Item>, now: int, f: Db)
    requires 0 in d.sources && d.sources[0].status == Active && f == SnapshotAll(d, d.rows, 0, items, now)
    requires forall k :: k in f.rows ==> k.source == 0 && k.bvid in Ids(items) && f.rows[k].linked && !f.rows[k].removed
    requires forall b :: b in f.videos ==> !f.videos[b].removed && Place(0, b) in f.rows
    ensures var e := Snapshot(d, 0, items, true, now);
      && e.rows == f.rows && e.videos == f.videos && e.highwater == f.highwater && e.nextId == f.nextId
      && 0 in e.sources && e.sources[0].status == Active
  {
    SweepIsIdle(f, items);
  }

  lemma {:induction false} FirstTurns(d: Db) returns (f: Db)
    requires d.rows == map[] && d.videos == map[] && d.highwater == 0 && d.nextId == 0 && 0 in d.sources && d.sources[0].status == Active
    ensures f == SnapshotAll(d, d.rows, 0, [A, B], 1) && AfterComplete(f)
  {
    hide SnapshotStep, SnapshotAll;
    ScanOfTwo(d, d.rows, A, B, 1);
    NewTurn(d, d.rows, A, 0);
    var c := SnapshotStep(d, d.rows, 0, A, 0, 1);
    NewTurn(c, d.rows, B, 1);
    f := SnapshotStep(c, d.rows, 0, B, 1, 1);
  }

  lemma {:induction false} FirstScan(d: Db) returns (e: Db)
    requires d.rows == map[] && d.videos == map[] && d.highwater == 0 && d.nextId == 0 && 0 in d.sources && d.sources[0].status == Active
    ensures e == Snapshot(d, 0, [A, B], true, 1) && AfterComplete(e)
  {
    hide SnapshotAll, Snapshot;
    e := Snapshot(d, 0, [A, B], true, 1);
    var f := FirstTurns(d);
    assert "a" in Ids([A, B]) && "b" in Ids([A, B]) by {
      assert [A, B][0].bvid == "a" && [A, B][1].bvid == "b";
    }
    CompleteEnds(d, [A, B], 1, f);
  }

  lemma {:induction false} IncompleteEnds(d: Db, items: seq<Item>, now: int, f: Db)
    requires 0 in d.sources && d.sources[0].status == Active && f == SnapshotAll(d, d.rows, 0, items, now)
    ensures var e := Snapshot(d, 0, items, false, now);
      && e.rows == f.rows && e.videos == f.videos && e.highwater == f.highwater
      && 0 in e.sources && e.sources[0].status == Active
  {
    hide SnapshotAll;
  }

  lemma {:induction false} SecondTurns(d: Db) returns (f: Db)
    requires AfterComplete(d)
    ensures f == SnapshotAll(d, d.rows, 0, [C, A], 1) && Tied(f)
  {
    hide SnapshotStep, SnapshotAll;
    ScanOfTwo(d, d.rows, C, A, 1);
    NewTurn(d, d.rows, C, 0);
    var c := SnapshotStep(d, d.rows, 0, C, 0, 1);
    KnownTurn(c, d.rows, A, 1, 1);
    f := SnapshotStep(c, d.rows, 0, A, 1, 1);
  }

  lemma {:induction false} SecondScan(d: Db) returns (e: Db)
    requires AfterComplete(d)
    ensures e == Snapshot(d, 0, [C, A], false, 1) && Tied(e)
  {
    hide SnapshotAll, Snapshot;
    e := Snapshot(d, 0, [C, A], false, 1);
    var f := SecondTurns(d);
    IncompleteEnds(d, [C, A], 1, f);
  }

  lemma {:induction false} ThirdTurns(d: Db) returns (g: Db)
    requires Tied(d)
    ensures g == SnapshotAll(d, d.rows, 0, SCAN, 2) && Parted(g)
  {
    hide SnapshotStep, SnapshotAll;
    ScanOfThree(d, d.rows, C, A, B, 2);
    KnownTurn(d, d.rows, C, 0, 2);
    var c := SnapshotStep(d, d.rows, 0, C, 0, 2);
    KnownTurn(c, d.rows, A, 1, 2);
    var f := SnapshotStep(c, d.rows, 0, A, 1, 2);
    KnownTurn(f, d.rows, B, 2, 2);
    g := SnapshotStep(f, d.rows, 0, B, 2, 2);
  }

  lemma {:induction false} ThirdScan(d: Db) returns (e: Db)
    requires Tied(d)
    ensures e == Snapshot(d, 0, SCAN, true, 2) && Parted(e)
  {
    hide SnapshotAll, Snapshot;
    e := Snapshot(d, 0, SCAN, true, 2);
    var g := ThirdTurns(d);
    ScanListsAll();
    CompleteEnds(d, SCAN, 2, g);
  }

  lemma {:induction false} ScanListsAll()
    ensures "a" in Ids(SCAN) && "b" in Ids(SCAN) && "c" in Ids(SCAN)
  {
    assert SCAN[0].bvid == "c" && SCAN[1].bvid == "a" && SCAN[2].bvid == "b";
  }

  // ---- the run ---------------------------------------------------------------------------------

  lemma {:induction false} EmptyBaseline() returns (d: Db)
    ensures d == Apply(Apply(EMPTY, PRE[0]), PRE[1])
    ensures d.rows == map[] && d.videos == map[] && d.highwater == 0 && d.nextId == 0 && 0 in d.sources && d.sources[0].status == Active
  {
    d := Apply(Apply(EMPTY, PRE[0]), PRE[1]);
  }

  lemma {:induction false} PreIsTied() returns (db: Db)
    ensures db == After(EMPTY, PRE) && Tied(db) && DistinctScans(PRE)
  {
    var a, b, c, e := PRE[0], PRE[1], PRE[2], PRE[3];
    assert PRE == [a, b, c, e];
    hide After, Apply, DistinctScans;
    AfterFour(a, b, c, e);
    PreIsDistinct();
    var d := EmptyBaseline();
    var f := FirstScan(d);
    ScanApplies(d, [A, B], true, 1);
    db := SecondScan(f);
    ScanApplies(f, [C, A], false, 1);
  }

  lemma {:induction false} ScanApplies(d: Db, items: seq<Item>, authoritative: bool, now: int)
    requires 0 in d.sources
    ensures Apply(d, ScanSnapshot(0, items, authoritative, now)) == Snapshot(d, 0, items, authoritative, now)
  {
    hide Snapshot;
  }

  lemma {:induction false} PreIsDistinct()
    ensures DistinctScans(PRE)
  {
  }

  // ---- what the reader gets --------------------------------------------------------------------

  const EVERYTHING := Query(Feed, None)

  function KeyAt(position: int, id: int): Key {
    Key(5, -position, 1, id, 0)
  }

  /** At this snapshot no row is counted against another. */
  lemma {:induction false} KeysAt(d: Db, k: Place)
    requires (Tied(d) || Parted(d)) && k in d.rows
    ensures k.bvid in d.videos && Shown(d, EVERYTHING, k, 3) && KeyOf(d, k, 3) == KeyAt(d.rows[k].position, d.videos[k.bvid].id)
  {
    assert NewerBefore(d.rows, k, 3) == {};
  }

  lemma {:induction false} CardsAt(d: Db)
    requires Tied(d) || Parted(d)
    ensures Cards(d, EVERYTHING, 3) == {KeyAt(0, 2), KeyAt(1, 0), KeyAt(d.rows[Place(0, "b")].position, 1)}
  {
    var a, b, c := Place(0, "a"), Place(0, "b"), Place(0, "c");
    KeysAt(d, a);
    KeysAt(d, b);
    KeysAt(d, c);
    hide Shown, KeyOf;
    forall k | k in d.rows ensures k == a || k == b || k == c {
    }
  }

  /** The listing of three cards in order. */
  lemma {:induction false} ListingOfThree(cards: set<Key>, x: Key, y: Key, z: Key)
    requires cards == {x, y, z} && Above(x, y) && Above(y, z)
    ensures Listing(cards) == [x, y, z]
  {
    var list := [x, y, z];
    AboveIsStrict(cards);
    assert Listed(list);
    assert forall k :: k in Listing(cards) <==> k in Elements(Listing(cards));
    SortedUnique(Above, Listing(cards), list, cards);
  }

  lemma {:induction false} FirstTwo(list: seq<Key>)
    requires |list| == 3
    ensures PageAfter(list, None, 2) == Page(list[..2], false, true)
  {
  }

  lemma {:induction false} NothingBelow(x: Key, y: Key, z: Key, cursor: Key)
    requires !Above(cursor, x) && !Above(cursor, y) && !Above(cursor, z)
    ensures PageAfter([x, y, z], Some(cursor), 2) == Page([], true, false)
  {
    assert [x, y, z][1..] == [y, z] && [y, z][1..] == [z] && [z][1..] == [];
    assert Below([z], cursor) == [] && Below([y, z], cursor) == [];
  }

  /** The reader's cursor is b's old key; refreshed, it is b's new one. */
  lemma {:induction false} CursorMoves(d: Db)
    requires Parted(d)
    ensures Refresh(d, Cursor(KeyAt(1, 1), 3)) == Cursor(KeyAt(2, 1), 3)
  {
    var cursor, b := Cursor(KeyAt(1, 1), 3), Place(0, "b");
    assert IsCursorRow(d, cursor, b);
    forall k | IsCursorRow(d, cursor, k) ensures k == b {
    }
    KeysAt(d, b);
  }

  lemma {:induction false} FirstPageIs(db: Db)
    requires Tied(db)
    ensures ReadPage(db, EVERYTHING, None, 2) == Page([KeyAt(0, 2), KeyAt(1, 1)], false, true)
  {
    CardsAt(db);
    ListingOfThree(Cards(db, EVERYTHING, 3), KeyAt(0, 2), KeyAt(1, 1), KeyAt(1, 0));
    hide Cards, Listing;
    FirstTwo([KeyAt(0, 2), KeyAt(1, 1), KeyAt(1, 0)]);
  }

  lemma {:induction false} SecondPageIs(d: Db)
    requires Parted(d)
    ensures ReadPage(d, EVERYTHING, Some(Cursor(KeyAt(1, 1), 3)), 2) == Page([], true, false)
  {
    CardsAt(d);
    ListingOfThree(Cards(d, EVERYTHING, 3), KeyAt(0, 2), KeyAt(1, 0), KeyAt(2, 1));
    CursorMoves(d);
    hide Cards, Listing, Refresh;
    NothingBelow(KeyAt(0, 2), KeyAt(1, 0), KeyAt(2, 1), KeyAt(2, 1));
  }

  lemma {:induction false} PositionsAreTied(db: Db)
    requires Tied(db)
    ensures Timed(db, 3) && !Untied(db.rows, 0)
  {
    assert ActiveAt(db.rows, Place(0, "a"), 0) && ActiveAt(db.rows, Place(0, "b"), 0);
  }

  lemma {:induction false} ScanOnlyInserts(db: Db)
    requires Tied(db)
    ensures InsertOnly(db, 0, SCAN)
  {
    assert SCAN[0].bvid == "c" && SCAN[1].bvid == "a" && SCAN[2].bvid == "b";
    ScanListsAll();
    hide Ids;
  }

  /** An incomplete scan leaves two rows at one position, and the next complete scan, which lists
      only old rows in their old order, gives one of them another key: a reader who has read c and
      b never sees a, which stands in its snapshot under the same key all the time. */
  lemma {:induction false} TiedCardIsSkipped() returns (pages: seq<Page>)
    ensures DistinctScans(PRE) && InsertOnly(After(EMPTY, PRE), 0, SCAN) && After(EMPTY, PRE).highwater == 3
    ensures var db := After(EMPTY, PRE);
      && Syncs(db, [ScanSnapshot(0, SCAN, true, 2)]) && Timed(db, 3)
      && Reads(db, [ScanSnapshot(0, SCAN, true, 2)], EVERYTHING, 2, [0, 1], pages) && !pages[|pages| - 1].hasNext
      && KeyAt(1, 0) in Cards(db, EVERYTHING, 3) && KeyAt(1, 0) in Cards(Snapshot(db, 0, SCAN, true, 2), EVERYTHING, 3)
      && KeyAt(1, 0) !in Items(pages)
  {
    hide After, ReadPage, InsertOnly, Cards, Snapshot, Syncs, Reads, DistinctScans, Timed, Items;
    var db := PreIsTied();
    var d := ThirdScan(db);
    var ops := [ScanSnapshot(0, SCAN, true, 2)];
    ScanOnlyInserts(db);
    PositionsAreTied(db);
    FirstPageIs(db);
    SecondPageIs(d);
    CardsAt(db);
    CardsAt(d);
    pages := [Page([KeyAt(0, 2), KeyAt(1, 1)], false, true), Page([], true, false)];
    OneScan(db, ops, d);
    ReadsAre(db, ops, d, pages);
    ItemsOfTwo(pages);
  }

  lemma {:induction false} ItemsOfTwo(pages: seq<Page>)
    requires |pages| == 2
    ensures Items(pages) == pages[0].items + pages[1].items
  {
    assert pages[..1][..0] == [] && pages[..1][0] == pages[0];
    assert Items(pages[..1]) == pages[0].items;
  }

  lemma {:induction false} OneScan(db: Db, ops: seq<Op>, d: Db)
    requires ops == [ScanSnapshot(0, SCAN, true, 2)] && InsertOnly(db, 0, SCAN) && d == Snapshot(db, 0, SCAN, true, 2)
    ensures Syncs(db, ops) && After(db, ops[..0]) == db && After(db, ops[..1]) == d
  {
    hide Snapshot;
    assert ops[..0] == [] && ops[..1] == ops;
  }

  lemma {:induction false} ReadsAre(db: Db, ops: seq<Op>, d: Db, pages: seq<Page>)
    requires |ops| == 1 && After(db, ops[..0]) == db && After(db, ops[..1]) == d && db.highwater == 3
    requires pages == [Page([KeyAt(0, 2), KeyAt(1, 1)], false, true), Page([], true, false)]
    requires ReadPage(db, EVERYTHING, None, 2) == pages[0]
    requires ReadPage(d, EVERYTHING, Some(Cursor(KeyAt(1, 1), 3)), 2) == pages[1]
    ensures Reads(db, ops, EVERYTHING, 2, [0, 1], pages)
  {
    hide ReadPage, After;
    assert CursorAt(pages, 0) == None && CursorAt(pages, 1) == Some(KeyAt(1, 1));
  }
}
