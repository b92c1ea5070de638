/** Library pages read at a snapshot while complete scans insert rows: `_page_video_cards` and
    `_refresh_library_card_cursor` of `src/shiliu/db.py`. */
module SnapshotReads {
  import opened Wrappers
  import opened Orders
  import opened Collection
  import opened MembershipSafety
  import opened Paging

  datatype View = Feed | Marked | Noted | Archived

  datatype Query = Query(view: View, source: Option<nat>)

  /** The cursor of a card: its order key and the snapshot it was read at. */
  datatype Cursor = Cursor(key: Key, snapshot: nat)

  predicate InView(v: Video, view: View) {
    match view
    case Feed => !v.archived
    case Marked => !v.archived && v.marked
    case Noted => !v.archived && v.noted
    case Archived => v.archived
  }

  /** The rows inserted after the snapshot that now stand before row `k` of their source. */
  function NewerBefore(rows: map<Place, Row>, k: Place, snapshot: nat): set<Place>
    requires k in rows
  {
    set l | l in rows && l.source == k.source && rows[l].number > snapshot && !rows[l].removed && rows[l].linked &&
            rows[l].position < rows[k].position
  }

  /** `snapshot_position`. */
  function SnapshotPosition(rows: map<Place, Row>, k: Place, snapshot: nat): int
    requires k in rows
  {
    rows[k].position - |NewerBefore(rows, k, snapshot)|
  }

  function CardTime(r: Row, v: Video): int {
    if r.favorite.Some? then r.favorite.value else if v.display.Some? then v.display.value else r.observed
  }

  function KeyOf(db: Db, k: Place, snapshot: nat): Key
    requires k in db.rows && k.bvid in db.videos
  {
    Key(CardTime(db.rows[k], db.videos[k.bvid]), -SnapshotPosition(db.rows, k, snapshot), db.videos[k.bvid].discovered,
        db.videos[k.bvid].id, 0 - k.source)
  }

  predicate Shown(db: Db, q: Query, k: Place, snapshot: nat) {
    && k in db.rows && k.bvid in db.videos && !db.rows[k].removed && db.rows[k].linked && db.rows[k].number <= snapshot
    && InView(db.videos[k.bvid], q.view) && (q.source.Some? ==> k.source == q.source.value)
  }

  function Cards(db: Db, q: Query, snapshot: nat): set<Key> {
    set k | k in db.rows && Shown(db, q, k, snapshot) :: KeyOf(db, k, snapshot)
  }

  lemma {:induction false} InsertListed(x: Key, rest: seq<Key>, cards: set<Key>)
    requires x in cards && Listed(rest) && Elements(rest) == cards - {x}
    ensures Listed(InsertBy(Above, x, rest)) && Elements(InsertBy(Above, x, rest)) == cards
  {
    forall y | y in rest ensures y in cards && y != x {
      assert y in Elements(rest);
    }
    AboveIsStrict(cards);
    InsertSorts(Above, x, rest, cards);
    InsertElements(Above, x, rest);
    forall y ensures y in Elements(InsertBy(Above, x, rest)) <==> y in cards {
      assert y in rest <==> y in Elements(rest);
    }
  }

  lemma {:induction false} ListingExists(cards: set<Key>)
    ensures exists list :: Listed(list) && Elements(list) == cards
    decreases |cards|
  {
    if cards == {} {
      assert Listed([]) && Elements([]) == cards;
    } else {
      var x :| x in cards;
      ListingExists(cards - {x});
      var rest: seq<Key> :| Listed(rest) && Elements(rest) == cards - {x};
      InsertListed(x, rest, cards);
    }
  }

  /** `SELECT ... ORDER BY key DESC`, without a limit. */
  ghost function Listing(cards: set<Key>): (list: seq<Key>)
    ensures Listed(list) && Elements(list) == cards
  {
    ListingExists(cards);
    var list :| Listed(list) && Elements(list) == cards;
    list
  }

  predicate IsCursorRow(db: Db, cursor: Cursor, k: Place) {
    k in db.rows && k.bvid in db.videos && db.rows[k].linked && db.videos[k.bvid].id == cursor.key.id &&
    0 - k.source == cursor.key.source && db.rows[k].number <= cursor.snapshot
  }

  /** `_refresh_library_card_cursor`: the cursor's row as it is now. */
  ghost function Refresh(db: Db, cursor: Cursor): Cursor {
    if exists k :: IsCursorRow(db, cursor, k) then
      var k :| IsCursorRow(db, cursor, k);
      Cursor(KeyOf(db, k, cursor.snapshot), cursor.snapshot)
    else cursor
  }

  /** The first page (at a new snapshot) or the page after a cursor (at the cursor's snapshot). */
  ghost function ReadPage(db: Db, q: Query, after: Option<Cursor>, size: nat): Page {
    var snapshot := if after.Some? then after.value.snapshot else db.highwater;
    var key := if after.Some? then Some(Refresh(db, after.value).key) else None;
    PageAfter(Listing(Cards(db, q, snapshot)), key, size)
  }

  // ---- scans that only insert ------------------------------------------------------------------

  /** The item is an active membership of the source already. */
  predicate IsOld(db: Db, s: nat, item: Item) {
    Place(s, item.bvid) in db.rows && !db.rows[Place(s, item.bvid)].removed
  }

  /** No source and no video knows the item. */
  ghost predicate NeverSeen(db: Db, item: Item) {
    item.bvid !in db.videos && forall k :: k in db.rows ==> k.bvid != item.bvid
  }

  /** How many of the first `n` items are old. */
  function OldBefore(db: Db, s: nat, items: seq<Item>, n: nat): (r: nat)
    requires n <= |items|
    ensures r <= n
  {
    if n == 0 then 0 else OldBefore(db, s, items, n - 1) + (if IsOld(db, s, items[n - 1]) then 1 else 0)
  }

  /** The scan is the old active list, in its old order and with its old times, interleaved with
      items that were never seen. */
  ghost predicate InsertOnly(db: Db, s: nat, items: seq<Item>) {
    && s in db.sources
    && DistinctItems(items)
    && (forall i :: 0 <= i < |items| ==> IsOld(db, s, items[i]) || NeverSeen(db, items[i]))
    && (forall i :: 0 <= i < |items| && IsOld(db, s, items[i]) ==>
          items[i].favorite.None? || items[i].favorite == db.rows[Place(s, items[i].bvid)].favorite)
    && (forall k :: k in db.rows && k.source == s && !db.rows[k].removed ==> k.bvid in Ids(items))
    && (forall i, j :: 0 <= i < j < |items| && IsOld(db, s, items[i]) && IsOld(db, s, items[j]) ==>
          db.rows[Place(s, items[i].bvid)].position <= db.rows[Place(s, items[j].bvid)].position)
  }

  /** The face of a video that a card shows. */
  predicate SameFace(v: Video, w: Video) {
    v.id == w.id && v.archived == w.archived && v.marked == w.marked && v.noted == w.noted && v.discovered == w.discovered
  }

  /** What the scan of the first `n` items has done to the rows. */
  ghost predicate RowEffect(db: Db, rows: map<Place, Row>, s: nat, items: seq<Item>, n: nat)
    requires n <= |items|
  {
    && (forall i :: 0 <= i < n ==> PlacedAt(db, rows, s, items[i], i))
    && (forall k: Place :: k.source != s || k.bvid !in Ids(items[..n]) ==> (k in rows <==> k in db.rows) && (k in db.rows ==> rows[k] == db.rows[k]))
  }

  /** An old row only moves; a new row is linked, active, and numbered after all that came before. */
  ghost predicate PlacedAt(db: Db, rows: map<Place, Row>, s: nat, item: Item, i: nat) {
    var k := Place(s, item.bvid);
    && k in rows
    && (if IsOld(db, s, item) then rows[k] == db.rows[k].(position := i)
        else rows[k].linked && !rows[k].removed && rows[k].number > db.highwater && rows[k].position == i)
  }

  ghost predicate VideoEffect(db: Db, videos: map<Bvid, Video>, items: seq<Item>, n: nat)
    requires n <= |items|
  {
    && (forall b :: b in db.videos ==> b in videos && SameFace(db.videos[b], videos[b]))
    && (forall b :: b in videos && b !in db.videos ==> b in Ids(items[..n]))
  }

  /** What the scan of the first `n` items has done to the collection. */
  ghost predicate Effect(db: Db, d: Db, s: nat, items: seq<Item>, n: nat)
    requires n <= |items|
  {
    d.highwater >= db.highwater && RowEffect(db, d.rows, s, items, n) && VideoEffect(db, d.videos, items, n)
  }

  lemma {:induction false} IdsOfPrefix(items: seq<Item>, n: nat)
    requires n < |items|
    ensures Ids(items[..n + 1]) == Ids(items[..n]) + {items[n].bvid}
    ensures forall i :: 0 <= i < n ==> items[i].bvid in Ids(items[..n])
    ensures DistinctItems(items) ==> items[n].bvid !in Ids(items[..n])
  {
    assert items[..n + 1] == items[..n] + [items[n]];
    forall i | 0 <= i < n ensures items[i].bvid in Ids(items[..n]) {
      assert items[..n][i] == items[i];
    }
  }

  lemma {:induction false} RowStep(db: Db, rows: map<Place, Row>, s: nat, items: seq<Item>, n: nat, row: Row)
    requires InsertOnly(db, s, items) && n < |items| && RowEffect(db, rows, s, items, n)
    requires PlacedAt(db, rows[Place(s, items[n].bvid) := row], s, items[n], n)
    ensures RowEffect(db, rows[Place(s, items[n].bvid) := row], s, items, n + 1)
  {
    IdsOfPrefix(items, n);
    var after := rows[Place(s, items[n].bvid) := row];
    forall i | 0 <= i < n + 1 ensures PlacedAt(db, after, s, items[i], i) {
      if i < n {
        assert PlacedAt(db, rows, s, items[i], i) && items[i].bvid != items[n].bvid;
      }
    }
  }

  lemma {:induction false} VideoStep(db: Db, videos: map<Bvid, Video>, items: seq<Item>, n: nat, video: Video)
    requires n < |items| && VideoEffect(db, videos, items, n)
    requires items[n].bvid in db.videos ==> SameFace(videos[items[n].bvid], video)
    ensures VideoEffect(db, videos[items[n].bvid := video], items, n + 1)
  {
    IdsOfPrefix(items, n);
  }

  lemma {:induction false} SameVideos(db: Db, videos: map<Bvid, Video>, items: seq<Item>, n: nat)
    requires n < |items| && VideoEffect(db, videos, items, n)
    ensures VideoEffect(db, videos, items, n + 1)
  {
    IdsOfPrefix(items, n);
  }

  /** A turn on a known active row: the row gets its new position, the video keeps its face. */
  lemma {:induction false} OldTurn(c: Db, known: map<Place, Row>, s: nat, item: Item, n: nat, now: int)
    requires var k := Place(s, item.bvid);
      && k in known && k in c.rows && c.rows[k] == known[k] && !known[k].removed
      && (item.favorite.None? || item.favorite == known[k].favorite) && (known[k].linked ==> item.bvid in c.videos)
    ensures var d, k := SnapshotStep(c, known, s, item, n, now), Place(s, item.bvid);
      && d.rows == c.rows[k := known[k].(position := n)] && d.highwater == c.highwater
      && (!known[k].linked ==> d.videos == c.videos)
      && (known[k].linked ==> item.bvid in d.videos && d.videos == c.videos[item.bvid := d.videos[item.bvid]] &&
                              SameFace(c.videos[item.bvid], d.videos[item.bvid]))
  {
  }

  lemma {:induction false} OldStep(db: Db, c: Db, s: nat, items: seq<Item>, n: nat, now: int)
    requires Sound(db) && InsertOnly(db, s, items) && n < |items| && Effect(db, c, s, items, n) && IsOld(db, s, items[n])
    ensures Effect(db, SnapshotStep(c, db.rows, s, items[n], n, now), s, items, n + 1)
  {
    var item, k := items[n], Place(s, items[n].bvid);
    assert k in c.rows && c.rows[k] == db.rows[k] by {
      IdsOfPrefix(items, n);
    }
    OldTurn(c, db.rows, s, item, n, now);
    var d := SnapshotStep(c, db.rows, s, item, n, now);
    assert RowEffect(db, d.rows, s, items, n + 1) by {
      RowStep(db, c.rows, s, items, n, db.rows[k].(position := n));
    }
    if db.rows[k].linked {
      VideoStep(db, c.videos, items, n, d.videos[item.bvid]);
    } else {
      SameVideos(db, c.videos, items, n);
    }
  }

  /** A turn on a never-seen item: a new video and a new linked row. */
  lemma {:induction false} NewTurn(c: Db, known: map<Place, Row>, s: nat, item: Item, n: nat, now: int)
    requires Place(s, item.bvid) !in known && Place(s, item.bvid) !in c.rows
    ensures var d, k := SnapshotStep(c, known, s, item, n, now), Place(s, item.bvid);
      && d.rows == c.rows[k := Row(c.highwater + 1, true, item.favorite, n, false, false, false, now)] && d.highwater == c.highwater + 1
      && item.bvid in d.videos && d.videos == c.videos[item.bvid := d.videos[item.bvid]]
  {
  }

  lemma {:induction false} NewStep(db: Db, c: Db, s: nat, items: seq<Item>, n: nat, now: int)
    requires Sound(db) && InsertOnly(db, s, items) && n < |items| && Effect(db, c, s, items, n) && !IsOld(db, s, items[n])
    ensures Effect(db, SnapshotStep(c, db.rows, s, items[n], n, now), s, items, n + 1)
  {
    var item, k := items[n], Place(s, items[n].bvid);
    assert NeverSeen(db, item);
    assert k !in db.rows && k !in c.rows by {
      IdsOfPrefix(items, n);
    }
    NewTurn(c, db.rows, s, item, n, now);
    var d := SnapshotStep(c, db.rows, s, item, n, now);
    assert RowEffect(db, d.rows, s, items, n + 1) by {
      RowStep(db, c.rows, s, items, n, Row(c.highwater + 1, true, item.favorite, n, false, false, false, now));
    }
    VideoStep(db, c.videos, items, n, d.videos[item.bvid]);
  }

  lemma {:induction false} ScanEffect(db: Db, s: nat, items: seq<Item>, n: nat, now: int) returns (d: Db)
    requires Sound(db) && InsertOnly(db, s, items) && n <= |items|
    ensures d == SnapshotAll(db, db.rows, s, items[..n], now) && Effect(db, d, s, items, n)
  {
    hide SnapshotStep, Effect, InsertOnly, Sound;
    if n == 0 {
      d := db;
      EffectStarts(db, s, items);
    } else {
      var c := ScanEffect(db, s, items, n - 1, now);
      assert items[..n][..n - 1] == items[..n - 1];
      d := SnapshotStep(c, db.rows, s, items[n - 1], n - 1, now);
      ScanTurn(db, c, s, items, n - 1, now);
    }
  }

  lemma {:induction false} ScanTurn(db: Db, c: Db, s: nat, items: seq<Item>, n: nat, now: int)
    requires Sound(db) && InsertOnly(db, s, items) && n < |items| && Effect(db, c, s, items, n)
    ensures Effect(db, SnapshotStep(c, db.rows, s, items[n], n, now), s, items, n + 1)
  {
    hide SnapshotStep, Effect, InsertOnly, Sound;
    if IsOld(db, s, items[n]) {
      OldStep(db, c, s, items, n, now);
    } else {
      NewStep(db, c, s, items, n, now);
    }
  }

  lemma {:induction false} EffectStarts(db: Db, s: nat, items: seq<Item>)
    ensures Effect(db, db, s, items, 0)
  {
  }
}
