/** What one scan of a favourite source leaves of every row and every video, told on the states before
    and after it: which videos come back into the library, and with which time they are shown. */
module Reentry {
  import opened Wrappers
  import opened Collection
  import opened MembershipSafety

  // ---- what the states before the scan say -----------------------------------------------------

  /** The source does not hold the video: it never did, or no longer does. */
  predicate Fresh(db: Db, s: nat, b: Bvid) {
    Place(s, b) !in db.rows || db.rows[Place(s, b)].removed
  }

  predicate WasLinked(db: Db, s: nat, b: Bvid) {
    Place(s, b) in db.rows && db.rows[Place(s, b)].linked
  }

  predicate WasArchived(db: Db, b: Bvid) {
    b in db.videos && db.videos[b].archived
  }

  /** Some active source holds the video. */
  ghost predicate HeldByActive(db: Db, b: Bvid) {
    exists t: nat :: t in db.sources && db.sources[t].status == Active && HoldsVideo(db, t, b)
  }

  predicate HoldsVideo(db: Db, t: nat, b: Bvid) {
    Place(t, b) in db.rows && db.rows[Place(t, b)].linked && !db.rows[Place(t, b)].removed
  }

  /** The time of a video that comes back: the one the source gives, otherwise the present. */
  function Arrival(item: Item, now: int): int {
    match item.favorite
    case Some(t) => if t != 0 then t else if now > 0 then now else 0
    case None => if now > 0 then now else 0
  }

  /** The later one of the shown time and the one the source gives. */
  function Later(shown: Option<int>, item: Item): int {
    var t := if item.favorite.Some? then item.favorite.value else 0;
    if shown.Some? && shown.value > t then shown.value
    else if shown.None? && 0 > t then 0 else t
  }

  // ---- what the states after it say ------------------------------------------------------------

  /** What no scan changes. */
  predicate SameIdentity(v: Video, w: Video) {
    w.id == v.id && w.marked == v.marked && w.noted == v.noted && w.discovered == v.discovered
  }

  /** The row of a listed item; `fresh`: what a row that is new gets. */
  predicate RowAfter(db: Db, d: Db, s: nat, item: Item, i: nat, linked: bool, baseline: bool, queued: bool, now: int) {
    var k := Place(s, item.bvid);
    && k in d.rows
    && var r := d.rows[k];
    && !r.removed && r.position == i && r.linked == linked
    && (item.favorite.Some? ==> r.favorite == item.favorite)
    && if k in db.rows then
         var o := db.rows[k];
         (item.favorite.None? ==> r.favorite == o.favorite) && r.number == o.number && r.baseline == o.baseline &&
         r.queued == o.queued && r.observed == o.observed
       else r.favorite == item.favorite && r.number > db.highwater && r.baseline == baseline && r.queued == queued && r.observed == now
  }

  /** The video of an item that a forward scan lists. */
  ghost predicate VideoAfter(db: Db, d: Db, s: nat, item: Item, now: int) {
    var b := item.bvid;
    if Fresh(db, s, b) then
      && b in d.videos && !d.videos[b].archived && !d.videos[b].removed
      && (if WasArchived(db, b) || !HeldByActive(db, b) || !WasLinked(db, s, b) then d.videos[b].display == Some(Arrival(item, now))
          else b in db.videos && d.videos[b].display == Some(Later(db.videos[b].display, item)))
      && (b !in db.videos ==> !d.videos[b].marked && !d.videos[b].noted && d.videos[b].discovered == now && d.videos[b].id >= db.nextId)
    else if WasLinked(db, s, b) then
      && b in d.videos && b in db.videos && !d.videos[b].removed
      && d.videos[b].archived == db.videos[b].archived
      && d.videos[b].display == Some(Later(db.videos[b].display, item))
    else (b in d.videos <==> b in db.videos) && (b in db.videos ==> d.videos[b].(removed := db.videos[b].removed) == db.videos[b])
  }

  /** The video of an item that a baseline scan lists: no video is made, and one that is there comes back. */
  ghost predicate VideoAfterBaseline(db: Db, d: Db, item: Item, now: int) {
    var b := item.bvid;
    && (b in d.videos <==> b in db.videos)
    && (b in db.videos ==>
          && !d.videos[b].archived && !d.videos[b].removed
          && d.videos[b].display == Some(if WasArchived(db, b) || !HeldByActive(db, b) then Arrival(item, now) else Later(db.videos[b].display, item)))
  }

  ghost predicate Turned(db: Db, d: Db, s: nat, item: Item, i: nat, now: int) {
    && RowAfter(db, d, s, item, i, Fresh(db, s, item.bvid) || WasLinked(db, s, item.bvid), false, false, now)
    && VideoAfter(db, d, s, item, now)
  }

  ghost predicate TurnedBaseline(db: Db, d: Db, s: nat, item: Item, i: nat, chosen: set<Bvid>, now: int) {
    var b := item.bvid;
    && RowAfter(db, d, s, item, i, WasLinked(db, s, b) || b in db.videos, b !in chosen, b in chosen, now)
    && VideoAfterBaseline(db, d, item, now)
  }

  /** Whatever the ids do not name is as it was, and nobody's identity changed. */
  ghost predicate Elsewhere(db: Db, d: Db, s: nat, ids: set<Bvid>) {
    && d.sources == db.sources && d.highwater >= db.highwater && d.nextId >= db.nextId
    && (forall k: Place :: k.source != s || k.bvid !in ids ==> (k in d.rows <==> k in db.rows) && (k in db.rows ==> d.rows[k] == db.rows[k]))
    && (forall b: Bvid :: b !in ids ==> (b in d.videos <==> b in db.videos) && (b in db.videos ==> d.videos[b] == db.videos[b]))
    && (forall b :: b in db.videos ==> b in d.videos && SameIdentity(db.videos[b], d.videos[b]))
  }

  // ---- one turn --------------------------------------------------------------------------------

  lemma {:induction false} HeldIff(db: Db, c: Db, s: nat, ids: set<Bvid>, b: Bvid)
    requires Elsewhere(db, c, s, ids) && b !in ids
    ensures HasActive(c, b) <==> HeldByActive(db, b)
  {
    if HasActive(c, b) {
      var k :| k in c.rows && k.bvid == b && c.rows[k].linked && !c.rows[k].removed && k.source in c.sources && c.sources[k.source].status == Active;
      assert k == Place(k.source, b) && HoldsVideo(db, k.source, b);
    }
    if HeldByActive(db, b) {
      var t: nat :| t in db.sources && db.sources[t].status == Active && HoldsVideo(db, t, b);
      assert Place(t, b) in c.rows;
    }
  }

  /** Only the item's own row and video are touched by a turn. */
  ghost predicate OnlyThis(c: Db, d: Db, s: nat, b: Bvid) {
    && d.sources == c.sources && d.highwater >= c.highwater && d.nextId >= c.nextId
    && (forall k: Place :: k != Place(s, b) ==> (k in d.rows <==> k in c.rows) && (k in c.rows ==> d.rows[k] == c.rows[k]))
    && (forall x: Bvid :: x != b ==> (x in d.videos <==> x in c.videos) && (x in c.videos ==> d.videos[x] == c.videos[x]))
    && (b in c.videos ==> b in d.videos && SameIdentity(c.videos[b], d.videos[b]))
  }

  lemma {:induction false} FetchedIsLocal(c: Db, known: map<Place, Row>, s: nat, item: Item, now: int)
    ensures OnlyThis(c, Fetched(c, known, s, item, now), s, item.bvid)
  {
  }

  lemma {:induction false} MembershipIsLocal(c: Db, s: nat, item: Item, n: nat, linked: bool, baseline: bool, queued: bool, now: int)
    ensures OnlyThis(c, Membership(c, s, item, n, linked, baseline, queued, now), s, item.bvid)
  {
  }

  lemma {:induction false} ObserveIsLocal(c: Db, s: nat, item: Item, reenter: bool, now: int)
    ensures OnlyThis(c, Observe(c, item, reenter, now), s, item.bvid)
  {
  }

  lemma {:induction false} LocalTrans(c: Db, d: Db, e: Db, s: nat, b: Bvid)
    requires OnlyThis(c, d, s, b) && OnlyThis(d, e, s, b)
    ensures OnlyThis(c, e, s, b)
  {
  }

  lemma {:induction false} StepIsLocal(c: Db, known: map<Place, Row>, s: nat, item: Item, n: nat, now: int)
    ensures OnlyThis(c, SnapshotStep(c, known, s, item, n, now), s, item.bvid)
  {
    hide OnlyThis, Fetched, Membership, Observe, Reenters, Links;
    var k := Place(s, item.bvid);
    var d := Fetched(c, known, s, item, now);
    var e := Membership(d, s, item, n, Links(known, k), false, false, now);
    var f := Observe(e, item, Reenters(d, known, k), now);
    FetchedIsLocal(c, known, s, item, now);
    MembershipIsLocal(d, s, item, n, Links(known, k), false, false, now);
    ObserveIsLocal(e, s, item, Reenters(d, known, k), now);
    LocalTrans(c, d, e, s, item.bvid);
    LocalTrans(c, e, f, s, item.bvid);
  }

  lemma {:induction false} BaselineStepIsLocal(c: Db, s: nat, item: Item, n: nat, chosen: set<Bvid>, now: int)
    ensures OnlyThis(c, BaselineStep(c, s, item, n, chosen, now), s, item.bvid)
  {
    hide OnlyThis, Membership, Observe, HasActive;
    var b := item.bvid;
    var known := b in c.videos;
    var reenter := known && (c.videos[b].archived || !HasActive(c, b));
    var d := Membership(c, s, item, n, known, b !in chosen, b in chosen, now);
    MembershipIsLocal(c, s, item, n, known, b !in chosen, b in chosen, now);
    ObserveIsLocal(d, s, item, reenter, now);
    LocalTrans(c, d, Observe(d, item, reenter, now), s, b);
  }

  lemma {:induction false} ElsewhereGrows(db: Db, c: Db, d: Db, s: nat, ids: set<Bvid>, b: Bvid)
    requires Elsewhere(db, c, s, ids) && OnlyThis(c, d, s, b)
    ensures Elsewhere(db, d, s, ids + {b})
  {
    forall x | x in db.videos ensures x in d.videos && SameIdentity(db.videos[x], d.videos[x]) {
      assert x in c.videos && SameIdentity(db.videos[x], c.videos[x]);
    }
  }

  lemma {:induction false} TurnedStays(db: Db, c: Db, d: Db, s: nat, item: Item, i: nat, now: int, b: Bvid)
    requires Turned(db, c, s, item, i, now) && OnlyThis(c, d, s, b) && b != item.bvid
    ensures Turned(db, d, s, item, i, now)
  {
    hide HeldByActive, Arrival, Later;
    assert Place(s, item.bvid) != Place(s, b);
  }

  lemma {:induction false} BaselineStays(db: Db, c: Db, d: Db, s: nat, item: Item, i: nat, chosen: set<Bvid>, now: int, b: Bvid)
    requires TurnedBaseline(db, c, s, item, i, chosen, now) && OnlyThis(c, d, s, b) && b != item.bvid
    ensures TurnedBaseline(db, d, s, item, i, chosen, now)
  {
    hide HeldByActive, Arrival, Later;
    assert Place(s, item.bvid) != Place(s, b);
  }

  /** The turn of a forward scan on an item it has not met. */
  lemma {:induction false} StepTurns(db: Db, c: Db, s: nat, ids: set<Bvid>, item: Item, n: nat, now: int)
    requires Anchored(db) && Elsewhere(db, c, s, ids) && item.bvid !in ids
    ensures Turned(db, SnapshotStep(c, db.rows, s, item, n, now), s, item, n, now)
  {
    StepRow(db, c, s, ids, item, n, now);
    StepVideo(db, c, s, ids, item, n, now);
  }

  lemma {:induction false} StepRow(db: Db, c: Db, s: nat, ids: set<Bvid>, item: Item, n: nat, now: int)
    requires Elsewhere(db, c, s, ids) && item.bvid !in ids
    ensures RowAfter(db, SnapshotStep(c, db.rows, s, item, n, now), s, item, n, Fresh(db, s, item.bvid) || WasLinked(db, s, item.bvid), false, false, now)
  {
    hide HasActive, Reenters;
    var k := Place(s, item.bvid);
    assert k in c.rows <==> k in db.rows;
  }

  lemma {:induction false} StepVideo(db: Db, c: Db, s: nat, ids: set<Bvid>, item: Item, n: nat, now: int)
    requires Anchored(db) && Elsewhere(db, c, s, ids) && item.bvid !in ids
    ensures VideoAfter(db, SnapshotStep(c, db.rows, s, item, n, now), s, item, now)
  {
    hide HasActive, HeldByActive;
    var b, k := item.bvid, Place(s, item.bvid);
    assert k in c.rows <==> k in db.rows;
    assert b in c.videos <==> b in db.videos;
    var d := Fetched(c, db.rows, s, item, now);
    SameHolders(c, d, b);
    HeldIff(db, c, s, ids, b);
  }

  lemma {:induction false} SameHolders(c: Db, d: Db, b: Bvid)
    requires d.rows == c.rows && d.sources == c.sources
    ensures HasActive(d, b) == HasActive(c, b)
  {
  }

  lemma {:induction false} BaselineTurns(db: Db, c: Db, s: nat, ids: set<Bvid>, item: Item, n: nat, chosen: set<Bvid>, now: int)
    requires Elsewhere(db, c, s, ids) && item.bvid !in ids
    ensures TurnedBaseline(db, BaselineStep(c, s, item, n, chosen, now), s, item, n, chosen, now)
  {
    hide HasActive, HeldByActive;
    var b, k := item.bvid, Place(s, item.bvid);
    assert k in c.rows <==> k in db.rows;
    assert b in c.videos <==> b in db.videos;
    HeldIff(db, c, s, ids, b);
  }

  // ---- the whole scan --------------------------------------------------------------------------

  lemma {:induction false} IdsSnoc(items: seq<Item>, n: nat)
    requires n < |items| && DistinctItems(items)
    ensures items[..n + 1][..n] == items[..n] && Ids(items[..n + 1]) == Ids(items[..n]) + {items[n].bvid}
    ensures items[n].bvid !in Ids(items[..n]) && forall i :: 0 <= i < n ==> items[i].bvid != items[n].bvid
  {
    assert items[..n + 1] == items[..n] + [items[n]];
  }

  lemma {:induction false} AllTurned(db: Db, s: nat, items: seq<Item>, n: nat, now: int) returns (d: Db)
    requires Anchored(db) && DistinctItems(items) && n <= |items|
    ensures d == SnapshotAll(db, db.rows, s, items[..n], now) && Elsewhere(db, d, s, Ids(items[..n]))
    ensures forall i :: 0 <= i < n ==> Turned(db, d, s, items[i], i, now)
  {
    hide SnapshotStep, Turned, Elsewhere, OnlyThis, Anchored;
    if n == 0 {
      d := db;
      NothingYet(db, s);
    } else {
      var m := n - 1;
      var c := AllTurned(db, s, items, n - 1, now);
      IdsSnoc(items, m);
      d := SnapshotStep(c, db.rows, s, items[m], m, now);
      StepTurns(db, c, s, Ids(items[..m]), items[m], m, now);
      StepIsLocal(c, db.rows, s, items[m], m, now);
      ElsewhereGrows(db, c, d, s, Ids(items[..m]), items[m].bvid);
      forall i | 0 <= i < m ensures Turned(db, d, s, items[i], i, now) {
        TurnedStays(db, c, d, s, items[i], i, now, items[m].bvid);
      }
    }
  }

  lemma {:induction false} NothingYet(db: Db, s: nat)
    ensures Elsewhere(db, db, s, Ids([]))
  {
  }

  lemma {:induction false} AllTurnedBaseline(db: Db, s: nat, items: seq<Item>, n: nat, chosen: set<Bvid>, now: int) returns (d: Db)
    requires DistinctItems(items) && n <= |items|
    ensures d == BaselineAll(db, s, items[..n], chosen, now) && Elsewhere(db, d, s, Ids(items[..n]))
    ensures forall i :: 0 <= i < n ==> TurnedBaseline(db, d, s, items[i], i, chosen, now)
  {
    hide BaselineStep, TurnedBaseline, Elsewhere, OnlyThis;
    if n == 0 {
      d := db;
      NothingYet(db, s);
    } else {
      var m := n - 1;
      var c := AllTurnedBaseline(db, s, items, n - 1, chosen, now);
      IdsSnoc(items, m);
      d := BaselineStep(c, s, items[m], m, chosen, now);
      BaselineTurns(db, c, s, Ids(items[..m]), items[m], m, chosen, now);
      BaselineStepIsLocal(c, s, items[m], m, chosen, now);
      ElsewhereGrows(db, c, d, s, Ids(items[..m]), items[m].bvid);
      forall i | 0 <= i < m ensures TurnedBaseline(db, d, s, items[i], i, chosen, now) {
        BaselineStays(db, c, d, s, items[i], i, chosen, now, items[m].bvid);
      }
    }
  }

  /** The removal at the end of a complete scan touches no listed item that has its video. */
  lemma {:induction false} SweepSpares(db: Db, d: Db, s: nat, ids: set<Bvid>, item: Item, i: nat, now: int)
    requires Turned(db, d, s, item, i, now) && item.bvid in ids
    ensures Turned(db, Sweep(d, s, ids), s, item, i, now)
  {
    hide HeldByActive, Arrival, Later;
    var b, e := item.bvid, Sweep(d, s, ids);
    var k := Place(s, b);
    assert e.rows[k] == d.rows[k];
    if d.rows[k].linked {
      assert Held(e.rows, b) by {
        assert k in e.rows && k.bvid == b;
      }
    }
  }

  /** A forward scan that lists each video once: the row and the video of every item it lists. */
  lemma {:induction false} ForwardScanTurns(db: Db, s: nat, items: seq<Item>, authoritative: bool, now: int, i: nat)
    requires s in db.sources && Anchored(db) && DistinctItems(items) && i < |items|
    ensures Turned(db, Snapshot(db, s, items, authoritative, now), s, items[i], i, now)
  {
    hide Turned, Anchored, SnapshotAll, Sweep, Elsewhere, Synced;
    assert items[..|items|] == items;
    var d := AllTurned(db, s, items, |items|, now);
    var e := d;
    if authoritative {
      SweepSpares(db, d, s, Ids(items), items[i], i, now);
      e := Sweep(d, s, Ids(items));
    }
    SourcesDoNotMatter(db, e, Snapshot(db, s, items, authoritative, now), s, items[i], i, now);
  }

  lemma {:induction false} SourcesDoNotMatter(db: Db, e: Db, d: Db, s: nat, item: Item, i: nat, now: int)
    requires Turned(db, e, s, item, i, now) && d.rows == e.rows && d.videos == e.videos
    ensures Turned(db, d, s, item, i, now)
  {
    hide HeldByActive, Arrival, Later;
  }

  /** A baseline scan that lists each video once: the row and the video of every item it lists. */
  lemma {:induction false} BaselineScanTurns(db: Db, s: nat, items: seq<Item>, authoritative: bool, now: int, i: nat)
    requires s in db.sources && DistinctItems(items) && i < |items|
    ensures var chosen := if authoritative then Bvids(LatestItems(items, HistorySize(db.sources[s], |items|))) else {};
      TurnedBaseline(db, Baseline(db, s, items, authoritative, now), s, items[i], i, chosen, now)
  {
    hide TurnedBaseline, BaselineAll, Elsewhere, LatestItems, HistorySize, Cutoff;
    assert items[..|items|] == items;
    var latest := if authoritative then LatestItems(items, HistorySize(db.sources[s], |items|)) else [];
    var d := AllTurnedBaseline(db, s, items, |items|, Bvids(latest), now);
    assert Bvids([]) == {};
    BaselineSources(db, d, Baseline(db, s, items, authoritative, now), s, items[i], i, Bvids(latest), now);
  }

  lemma {:induction false} BaselineSources(db: Db, e: Db, d: Db, s: nat, item: Item, i: nat, chosen: set<Bvid>, now: int)
    requires TurnedBaseline(db, e, s, item, i, chosen, now) && d.rows == e.rows && d.videos == e.videos
    ensures TurnedBaseline(db, d, s, item, i, chosen, now)
  {
    hide HeldByActive, Arrival, Later;
  }

  // ---- the main results ------------------------------------------------------------------------

  /** A listed video that the source did not hold comes back: it ends unarchived, and if it was archived,
      or no active source held it, it is shown with the time the source gives, or the present. */
  lemma {:induction false} ListedComesBack(db: Db, s: nat, items: seq<Item>, authoritative: bool, now: int, i: nat)
    requires s in db.sources && Anchored(db) && DistinctItems(items) && i < |items|
    requires Fresh(db, s, items[i].bvid)
    ensures var d, b := Snapshot(db, s, items, authoritative, now), items[i].bvid;
      && b in d.videos && !d.videos[b].archived && !d.videos[b].removed
      && (WasArchived(db, b) || !HeldByActive(db, b) ==> d.videos[b].display == Some(Arrival(items[i], now)))
  {
    hide Snapshot, HeldByActive, Arrival, Anchored;
    ForwardScanTurns(db, s, items, authoritative, now, i);
  }

  /** A listed video that the source held already keeps its archive flag, and its time never falls. */
  lemma {:induction false} ListedStays(db: Db, s: nat, items: seq<Item>, authoritative: bool, now: int, i: nat)
    requires s in db.sources && Anchored(db) && DistinctItems(items) && i < |items|
    requires HoldsVideo(db, s, items[i].bvid)
    ensures var d, b := Snapshot(db, s, items, authoritative, now), items[i].bvid;
      && b in d.videos && b in db.videos && d.videos[b].archived == db.videos[b].archived
      && d.videos[b].display.Some? && (db.videos[b].display.Some? ==> d.videos[b].display.value >= db.videos[b].display.value)
      && (items[i].favorite.Some? ==> d.videos[b].display.value >= items[i].favorite.value)
  {
    hide Snapshot, HeldByActive, Anchored;
    ForwardScanTurns(db, s, items, authoritative, now, i);
  }

  /** No scan changes a video's identity, its mark, its note or its discovery time, and it touches
      nothing else of a video it does not list than whether that one is removed. */
  lemma {:induction false} ScanKeepsVideos(db: Db, s: nat, items: seq<Item>, authoritative: bool, now: int, b: Bvid)
    requires s in db.sources && Anchored(db) && DistinctItems(items) && b in db.videos
    ensures var d, e := Snapshot(db, s, items, authoritative, now), Baseline(db, s, items, authoritative, now);
      && b in d.videos && SameIdentity(db.videos[b], d.videos[b])
      && b in e.videos && SameIdentity(db.videos[b], e.videos[b])
      && (b !in Ids(items) ==> d.videos[b].(removed := db.videos[b].removed) == db.videos[b] == e.videos[b])
      && (b !in Ids(items) && !authoritative ==> d.videos[b] == db.videos[b])
  {
    hide Snapshot, Baseline, Anchored;
    ForwardScanKeeps(db, s, items, authoritative, now, b);
    BaselineScanKeeps(db, s, items, authoritative, now, b);
  }

  lemma {:induction false} ForwardScanKeeps(db: Db, s: nat, items: seq<Item>, authoritative: bool, now: int, b: Bvid)
    requires s in db.sources && Anchored(db) && DistinctItems(items) && b in db.videos
    ensures var d := Snapshot(db, s, items, authoritative, now);
      && b in d.videos && SameIdentity(db.videos[b], d.videos[b])
      && (b !in Ids(items) ==> d.videos[b].(removed := db.videos[b].removed) == db.videos[b])
      && (b !in Ids(items) && !authoritative ==> d.videos[b] == db.videos[b])
  {
    hide SnapshotAll, Anchored, Turned, Synced, Held, Ids;
    assert items[..|items|] == items;
    var d := AllTurned(db, s, items, |items|, now);
  }

  lemma {:induction false} BaselineScanKeeps(db: Db, s: nat, items: seq<Item>, authoritative: bool, now: int, b: Bvid)
    requires s in db.sources && DistinctItems(items) && b in db.videos
    ensures var e := Baseline(db, s, items, authoritative, now);
      b in e.videos && SameIdentity(db.videos[b], e.videos[b]) && (b !in Ids(items) ==> e.videos[b] == db.videos[b])
  {
    hide BaselineAll, TurnedBaseline, LatestItems, HistorySize, Cutoff, Ids;
    assert items[..|items|] == items;
    var latest := if authoritative then LatestItems(items, HistorySize(db.sources[s], |items|)) else [];
    var e := AllTurnedBaseline(db, s, items, |items|, Bvids(latest), now);
  }
}
