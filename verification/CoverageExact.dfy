/** When a change of coverage leaves exactly the selected rows queued, and the runs after which the
    early return for a coverage already in force does not. */
module CoverageExact {
  import opened Wrappers
  import opened Orders
  import opened Collection
  import opened Coverage

  /** The queued rows among the source's active memberships are exactly the selected ones that have
      no video. */
  ghost predicate QueueExact(rows: map<Place, Row>, s: nat, policy: Policy, limit: Option<nat>) {
    forall b :: Place(s, b) in QueuedOf(rows, s) <==>
      b in Selected(rows, s, policy, limit) && Place(s, b) in rows && !rows[Place(s, b)].linked
  }

  ghost predicate NoneLinked(rows: map<Place, Row>, s: nat) {
    forall k :: k in QueuedOf(rows, s) ==> !rows[k].linked
  }

  ghost predicate NoneOutside(rows: map<Place, Row>, s: nat, policy: Policy, limit: Option<nat>) {
    forall k :: k in QueuedOf(rows, s) ==> k.bvid in Selected(rows, s, policy, limit)
  }

  ghost predicate NoneMissing(rows: map<Place, Row>, s: nat, policy: Policy, limit: Option<nat>) {
    forall b :: b in Selected(rows, s, policy, limit) && Place(s, b) in rows && !rows[Place(s, b)].linked ==>
      Place(s, b) in QueuedOf(rows, s)
  }

  /** What the update writes does not change what the query selects. */
  lemma {:induction false} RequeuedSelects(rows: map<Place, Row>, s: nat, chosen: set<Bvid>, policy: Policy, limit: Option<nat>)
    ensures Selected(Requeued(rows, s, chosen), s, policy, limit) == Selected(rows, s, policy, limit)
  {
    var after := Requeued(rows, s, chosen);
    assert ActiveOf(after, s) == ActiveOf(rows, s) by {
      forall b ensures b in ActiveOf(after, s) <==> b in ActiveOf(rows, s) {
        assert Place(s, b) in after <==> Place(s, b) in rows;
      }
    }
    if policy == LatestN {
      TopNAgrees(Order(after, s), Order(rows, s), ActiveOf(rows, s), if limit.Some? then limit.value else 0);
    }
  }

  lemma {:induction false} TopNAgrees<T(!new)>(less: (T, T) -> bool, same: (T, T) -> bool, dom: set<T>, n: nat)
    requires forall x, y :: x in dom && y in dom ==> less(x, y) == same(x, y)
    ensures TopN(less, dom, n) == TopN(same, dom, n)
  {
    forall x | x in dom ensures (set y | y in dom && less(y, x)) == (set y | y in dom && same(y, x)) {
    }
  }

  /** The queue is exact after the call, if and only if the coverage was not in force already or
      three things held of the rows: no linked row was queued, no queued row lay outside the
      selection, and every selected row without a video was queued. */
  lemma {:induction false} CoverageExactIff(db: Db, s: nat, policy: Policy, limit: Option<nat>, now: int)
    requires CoverageError(db, s, policy, limit).None?
    ensures QueueExact(Collection.Coverage(db, s, policy, limit, now).rows, s, policy, limit) <==>
            !SameCoverage(db.sources[s], policy, limit) ||
            (NoneLinked(db.rows, s) && NoneOutside(db.rows, s, policy, limit) && NoneMissing(db.rows, s, policy, limit))
  {
    SelectedIsActive(db.rows, s, policy, limit);
    if SameCoverage(db.sources[s], policy, limit) {
      InForceIsExactIff(db.rows, s, policy, limit);
    } else {
      var chosen := Selected(db.rows, s, policy, limit);
      RequeuedSelects(db.rows, s, chosen, policy, limit);
      forall b {
        CoverageQueuesExactly(db, s, policy, limit, now, b);
      }
    }
  }

  lemma {:induction false} InForceIsExactIff(rows: map<Place, Row>, s: nat, policy: Policy, limit: Option<nat>)
    ensures QueueExact(rows, s, policy, limit) <==>
            NoneLinked(rows, s) && NoneOutside(rows, s, policy, limit) && NoneMissing(rows, s, policy, limit)
  {
    if QueueExact(rows, s, policy, limit) {
      forall k | k in QueuedOf(rows, s) ensures !rows[k].linked && k.bvid in Selected(rows, s, policy, limit) {
        assert k == Place(s, k.bvid);
      }
    }
  }

  /** Whatever the rows are, the queue of a source with these columns is exact after the call. */
  ghost predicate AlwaysExact(src: Source, s: nat, policy: Policy, limit: Option<nat>, now: int)
    requires src.complete && (policy == LatestN ==> limit.Some? && limit.value >= 1)
  {
    forall db: Db :: s in db.sources && db.sources[s] == src ==> QueueExact(Collection.Coverage(db, s, policy, limit, now).rows, s, policy, limit)
  }

  /** For a caller who sees only the source: exactness is certain if and only if the coverage asked
      for is not the one in force. */
  lemma {:induction false} AlwaysExactIff(src: Source, s: nat, policy: Policy, limit: Option<nat>, now: int)
    requires src.complete && (policy == LatestN ==> limit.Some? && limit.value >= 1)
    ensures AlwaysExact(src, s, policy, limit, now) <==> !SameCoverage(src, policy, limit)
  {
    if SameCoverage(src, policy, limit) {
      var k := Place(s, "a");
      var db := Db(map[k := Row(1, true, None, 0, false, true, false, 0)], map["a" := Video(0, false, false, false, false, Some(0), 0)],
                   map[s := src], 1, 1);
      CoverageExactIff(db, s, policy, limit, now);
      assert k in QueuedOf(db.rows, s) && db.rows[k].linked;
    } else {
      forall db: Db | s in db.sources && db.sources[s] == src
        ensures QueueExact(Collection.Coverage(db, s, policy, limit, now).rows, s, policy, limit)
      {
        CoverageExactIff(db, s, policy, limit, now);
      }
    }
  }

  // ---- three runs that leave the queue inexact -------------------------------------------------

  const SOURCE := Source(LatestN, Some(1), false, false, None, Active)
  const BASED := SOURCE.(complete := true, settled := true, cutoff := Some(5))
  const A := Item("a", Some(5))
  const B := Item("b", Some(4))
  const C := Item("c", Some(9))

  /** The latest item of one or two, the newer one first. */
  lemma {:induction false} LatestOne(items: seq<Item>)
    requires items == [A] || items == [A, B]
    ensures LatestItems(items, 1) == [Ranked(A, 0)]
  {
    OrderedItems(items);
    var ordered := SortBy(EarlierItem, Enumerate(items));
    assert Enumerate(items)[0] == Ranked(A, 0) && ordered[0] in Enumerate(items);
    assert Ranked(A, 0) in ordered;
    var i :| 0 <= i < |ordered| && ordered[i] == Ranked(A, 0);
    assert i > 0 ==> EarlierItem(ordered[0], ordered[i]);
    assert ordered[..1] == [ordered[0]];
  }

  /** What the first baseline of the source leaves of one item. */
  function BaseRow(number: nat, linked: bool, item: Item, position: int, queued: bool, now: int): Row {
    Row(number, linked, item.favorite, position, !queued, queued, false, now)
  }

  lemma {:induction false} BaselineOne(db: Db, now: int)
    requires db.rows == map[] && 0 in db.sources && db.sources[0] == SOURCE && db.highwater == 0
    ensures var d := Baseline(db, 0, [A], true, now);
      d.rows == map[Place(0, "a") := BaseRow(1, "a" in db.videos, A, 0, true, now)] && d.sources == db.sources[0 := BASED]
    ensures "a" !in db.videos ==> Baseline(db, 0, [A], true, now).videos == db.videos
    ensures Baseline(db, 0, [A], true, now).highwater == 1 && Baseline(db, 0, [A], true, now).nextId == db.nextId
  {
    LatestOne([A]);
    var latest := [Ranked(A, 0)];
    assert Bvids(latest) == {"a"} by { assert latest[0].item.bvid == "a"; }
    assert Times(latest) == {5} by { assert latest[0].item.favorite == Some(5); }
    assert [A][..0] == [];
    assert BaselineAll(db, 0, [A], {"a"}, now) == BaselineStep(db, 0, A, 0, {"a"}, now);
  }

  /** A baseline that meets a known video queues its row; asked again for, the coverage in force
      keeps the linked row queued. */
  lemma {:induction false} LinkedStaysQueued()
    ensures var d := After(EMPTY, [AddSource(0, SOURCE), AddVideo("a", 3, 1), ScanBaseline(0, [A], true, 2), SetCoverage(0, LatestN, Some(1), 3)]);
      Place(0, "a") in QueuedOf(d.rows, 0) && d.rows[Place(0, "a")].linked
  {
    var a, b, c, e := AddSource(0, SOURCE), AddVideo("a", 3, 1), ScanBaseline(0, [A], true, 2), SetCoverage(0, LatestN, Some(1), 3);
    AfterFour(a, b, c, e);
    var d := Apply(Apply(EMPTY, a), b);
    assert d.rows == map[] && d.sources == map[0 := SOURCE] && "a" in d.videos;
    BaselineOne(d, 2);
  }

  /** The scan's first turn: a new item gets its video and its row. */
  lemma {:induction false} NewItem(d: Db)
    requires Place(0, "c") !in d.rows && d.videos == map[] && d.highwater == 1
    ensures var e := SnapshotStep(d, d.rows, 0, C, 0, 2);
      && e.rows == d.rows[Place(0, "c") := Row(2, true, Some(9), 0, false, false, false, 2)]
      && e.sources == d.sources
  {
  }

  /** Its second turn: a waiting item only moves. */
  lemma {:induction false} WaitingItem(e: Db, known: map<Place, Row>)
    requires Place(0, "a") in known && known[Place(0, "a")] == BaseRow(1, false, A, 0, true, 1)
    requires Place(0, "a") in e.rows && e.rows[Place(0, "a")] == BaseRow(1, false, A, 0, true, 1)
    ensures var f := SnapshotStep(e, known, 0, A, 1, 2);
      && f.rows == e.rows[Place(0, "a") := BaseRow(1, false, A, 1, true, 1)]
      && f.sources == e.sources
  {
  }

  lemma {:induction false} NothingUnlisted(rows: map<Place, Row>)
    requires rows.Keys == {Place(0, "a"), Place(0, "c")}
    ensures Unlisted(rows, 0, Ids([C, A])) == rows
  {
    assert "c" in Ids([C, A]) && "a" in Ids([C, A]) by {
      assert [C, A][0].bvid == "c" && [C, A][1].bvid == "a";
    }
  }

  lemma {:induction false} TwoTurns(d: Db, x: Item, y: Item)
    ensures SnapshotAll(d, d.rows, 0, [x, y], 2) == SnapshotStep(SnapshotStep(d, d.rows, 0, x, 0, 2), d.rows, 0, y, 1, 2)
  {
    assert [x, y][..1] == [x] && [x][..0] == [];
    assert SnapshotAll(d, d.rows, 0, [x], 2) == SnapshotStep(d, d.rows, 0, x, 0, 2);
  }

  /** The rows a scan of one new and one waiting item leaves. */
  lemma {:induction false} NewerArrives(d: Db)
    requires d.rows == map[Place(0, "a") := BaseRow(1, false, A, 0, true, 1)] && d.sources == map[0 := BASED] && d.videos == map[] && d.highwater == 1
    ensures var e := Snapshot(d, 0, [C, A], true, 2);
      && e.rows == map[Place(0, "c") := Row(2, true, Some(9), 0, false, false, false, 2),
                       Place(0, "a") := BaseRow(1, false, A, 1, true, 1)]
      && e.sources == map[0 := BASED]
  {
    TwoTurns(d, C, A);
    var both := BothTurns(d);
    SnapshotEnds(d, [C, A]);
    NothingUnlisted(both.rows);
    assert Synced(BASED, true) == BASED;
  }

  lemma {:induction false} BothTurns(d: Db) returns (both: Db)
    requires d.rows == map[Place(0, "a") := BaseRow(1, false, A, 0, true, 1)] && d.videos == map[] && d.highwater == 1
    ensures both == SnapshotStep(SnapshotStep(d, d.rows, 0, C, 0, 2), d.rows, 0, A, 1, 2) && both.sources == d.sources
    ensures both.rows == map[Place(0, "c") := Row(2, true, Some(9), 0, false, false, false, 2),
                             Place(0, "a") := BaseRow(1, false, A, 1, true, 1)]
  {
    NewItem(d);
    var first := SnapshotStep(d, d.rows, 0, C, 0, 2);
    WaitingItem(first, d.rows);
    both := SnapshotStep(first, d.rows, 0, A, 1, 2);
  }

  lemma {:induction false} SnapshotEnds(d: Db, items: seq<Item>)
    requires 0 in d.sources
    ensures var all, e := SnapshotAll(d, d.rows, 0, items, 2), Snapshot(d, 0, items, true, 2);
      e.rows == Unlisted(all.rows, 0, Ids(items)) && e.sources == all.sources[0 := Synced(d.sources[0], true)]
  {
  }

  lemma {:induction false} OldIsNotSelected(rows: map<Place, Row>)
    requires rows == map[Place(0, "c") := Row(2, true, Some(9), 0, false, false, false, 2),
                         Place(0, "a") := BaseRow(1, false, A, 1, true, 1)]
    ensures "a" !in Selected(rows, 0, LatestN, Some(1)) && QueuedOf(rows, 0) == {Place(0, "a")}
  {
    var dom, less := ActiveOf(rows, 0), Order(rows, 0);
    assert rows[Place(0, "c")].favorite == Some(9) && "c" in dom by { assert Place(0, "c") in rows; }
    assert less("c", "a");
    assert {"c"} <= set y | y in dom && less(y, "a");
    CountAtLeast({"c"}, set y | y in dom && less(y, "a"));
  }

  lemma {:induction false} CountAtLeast<T>(a: set<T>, b: set<T>)
    requires a <= b
    ensures |a| <= |b|
  {
    assert b == a + (b - a);
  }

  /** A newer item takes the place of a waiting one: asked again for, the coverage in force keeps
      the old one queued outside the selection, and no linked row is queued. */
  lemma {:induction false} OutdatedStaysQueued()
    ensures var d := After(EMPTY, [AddSource(0, SOURCE), ScanBaseline(0, [A], true, 1), ScanSnapshot(0, [C, A], true, 2), SetCoverage(0, LatestN, Some(1), 3)]);
      && Place(0, "a") in QueuedOf(d.rows, 0) && "a" !in Selected(d.rows, 0, LatestN, Some(1))
      && NoneLinked(d.rows, 0)
  {
    var a, b, c, e := AddSource(0, SOURCE), ScanBaseline(0, [A], true, 1), ScanSnapshot(0, [C, A], true, 2), SetCoverage(0, LatestN, Some(1), 3);
    AfterFour(a, b, c, e);
    OneBased();
    var d := Apply(Apply(EMPTY, a), b);
    NewerArrives(d);
    var f := Snapshot(d, 0, [C, A], true, 2);
    OldIsNotSelected(f.rows);
    InForceStays(f);
  }

  lemma {:induction false} OneBased()
    ensures var d := Apply(Apply(EMPTY, AddSource(0, SOURCE)), ScanBaseline(0, [A], true, 1));
      && d.rows == map[Place(0, "a") := BaseRow(1, false, A, 0, true, 1)] && d.sources == map[0 := BASED]
      && d.videos == map[] && d.highwater == 1
  {
    var d := Apply(EMPTY, AddSource(0, SOURCE));
    assert d.rows == map[] && d.sources == map[0 := SOURCE] && d.videos == map[];
    BaselineOne(d, 1);
  }

  lemma {:induction false} InForceStays(d: Db)
    requires d.sources == map[0 := BASED]
    ensures Apply(d, SetCoverage(0, LatestN, Some(1), 3)) == d
  {
  }

  lemma {:induction false} BaselineTwo(db: Db)
    requires db == Apply(EMPTY, AddSource(0, SOURCE))
    ensures var d := Baseline(db, 0, [A, B], true, 1);
      && d.rows == map[Place(0, "a") := BaseRow(1, false, A, 0, true, 1), Place(0, "b") := BaseRow(2, false, B, 1, false, 1)]
      && d.sources == map[0 := BASED] && d.videos == map[]
  {
    LatestOne([A, B]);
    var latest := [Ranked(A, 0)];
    assert Bvids(latest) == {"a"} by { assert latest[0].item.bvid == "a"; }
    assert Times(latest) == {5} by { assert latest[0].item.favorite == Some(5); }
    assert [A, B][..1] == [A] && [A][..0] == [];
    var first := BaselineStep(db, 0, A, 0, {"a"}, 1);
    assert BaselineAll(db, 0, [A], {"a"}, 1) == first;
    assert BaselineAll(db, 0, [A, B], {"a"}, 1) == BaselineStep(first, 0, B, 1, {"a"}, 1);
  }

  lemma {:induction false} NewestLeaves(d: Db)
    requires d.rows == map[Place(0, "a") := BaseRow(1, false, A, 0, true, 1), Place(0, "b") := BaseRow(2, false, B, 1, false, 1)]
    requires d.sources == map[0 := BASED] && d.videos == map[]
    ensures var e := Snapshot(d, 0, [B], true, 2);
      && e.rows == map[Place(0, "a") := BaseRow(1, false, A, 0, true, 1).(removed := true), Place(0, "b") := BaseRow(2, false, B, 0, false, 1)]
      && e.sources == map[0 := BASED]
  {
    assert [B][..0] == [];
    var first := SnapshotStep(d, d.rows, 0, B, 0, 2);
    assert SnapshotAll(d, d.rows, 0, [B], 2) == first;
    assert Ids([B]) == {"b"} by { assert [B][0].bvid == "b"; }
  }

  lemma {:induction false} LastIsSelected(rows: map<Place, Row>)
    requires rows == map[Place(0, "a") := BaseRow(1, false, A, 0, true, 1).(removed := true), Place(0, "b") := BaseRow(2, false, B, 0, false, 1)]
    ensures "b" in Selected(rows, 0, LatestN, Some(1)) && QueuedOf(rows, 0) == {}
  {
    var dom, less := ActiveOf(rows, 0), Order(rows, 0);
    assert dom == {"b"} by {
      assert Place(0, "b") in rows;
    }
    assert (set y | y in dom && less(y, "b")) == {};
  }

  /** The newest item leaves the source: asked again for, the coverage in force does not queue the
      one that is selected in its place. */
  lemma {:induction false} SuccessorStaysUnqueued()
    ensures var d := After(EMPTY, [AddSource(0, SOURCE), ScanBaseline(0, [A, B], true, 1), ScanSnapshot(0, [B], true, 2), SetCoverage(0, LatestN, Some(1), 3)]);
      && "b" in Selected(d.rows, 0, LatestN, Some(1)) && !d.rows[Place(0, "b")].linked
      && QueuedOf(d.rows, 0) == {}
  {
    var a, b, c, e := AddSource(0, SOURCE), ScanBaseline(0, [A, B], true, 1), ScanSnapshot(0, [B], true, 2), SetCoverage(0, LatestN, Some(1), 3);
    AfterFour(a, b, c, e);
    BaselineTwo(Apply(EMPTY, a));
    var d := Apply(Apply(EMPTY, a), b);
    NewestLeaves(d);
    var f := Snapshot(d, 0, [B], true, 2);
    LastIsSelected(f.rows);
    InForceStays(f);
  }

  // ---- scans that list a video twice -----------------------------------------------------------

  /** The baseline of a source without earlier rows chose what the coverage query selects. */
  ghost predicate Agrees(db: Db, s: nat, items: seq<Item>, now: int, later: int)
    requires s in db.sources
  {
    var src, d := db.sources[s], Baseline(db, s, items, true, now);
    && Selected(d.rows, s, src.policy, src.limit) == Bvids(LatestItems(items, HistorySize(src, |items|)))
    && Cutoff(RowTimes(d.rows, s, Selected(d.rows, s, src.policy, src.limit)), src.policy, later) == d.sources[s].cutoff
  }

  ghost predicate FirstBaseline(db: Db, s: nat) {
    s in db.sources && Fresh(db.rows, s) &&
    (db.sources[s].policy == All || (db.sources[s].policy == LatestN && db.sources[s].limit.Some?))
  }

  /** They agree for these ids, whatever the times, the policy and the limit. */
  ghost predicate AlwaysAgrees(ids: seq<Bvid>) {
    forall db: Db, s: nat, items: seq<Item>, now: int, later: int ::
      FirstBaseline(db, s) && BvidsOf(items) == ids ==> Agrees(db, s, items, now, later)
  }

  /** Item `p` is the last one that lists the video. */
  predicate IsLast(items: seq<Item>, p: nat, b: Bvid) {
    p < |items| && items[p].bvid == b && forall q :: p < q < |items| ==> items[q].bvid != b
  }

  /** A row keeps the time its last item gave it. */
  lemma {:induction false} LastTimes(db: Db, s: nat, items: seq<Item>, chosen: set<Bvid>, now: int, k: Place)
    requires Fresh(db.rows, s) && forall p :: 0 <= p < |items| ==> items[p].favorite.Some?
    requires k in BaselineAll(db, s, items, chosen, now).rows && k.source == s
    ensures exists p: nat :: IsLast(items, p, k.bvid) && BaselineAll(db, s, items, chosen, now).rows[k].favorite == items[p].favorite
  {
    if items != [] {
      var n := |items| - 1;
      var init, c := items[..n], BaselineAll(db, s, items[..n], chosen, now);
      TimeStep(c, s, items[n], n, chosen, now, k);
      if k == Place(s, items[n].bvid) {
        assert IsLast(items, n, k.bvid);
      } else {
        LastTimes(db, s, init, chosen, now, k);
        var p: nat :| IsLast(init, p, k.bvid) && c.rows[k].favorite == init[p].favorite;
        assert IsLast(items, p, k.bvid);
      }
    }
  }

  lemma {:induction false} TimeStep(c: Db, s: nat, item: Item, n: nat, chosen: set<Bvid>, now: int, k: Place)
    requires item.favorite.Some?
    ensures var d := BaselineStep(c, s, item, n, chosen, now);
      if k == Place(s, item.bvid) then k in d.rows && d.rows[k].favorite == item.favorite
      else (k in d.rows <==> k in c.rows) && (k in c.rows ==> d.rows[k] == c.rows[k])
  {
  }

  const WHOLE := Source(All, None, false, false, None, Active)

  /** The repeated video is older where it is listed first. */
  function Dated(ids: seq<Bvid>, first: nat): (items: seq<Item>)
    ensures BvidsOf(items) == ids && |items| == |ids|
    ensures forall p :: 0 <= p < |items| ==> items[p] == Item(ids[p], Some(if p == first then 5 else 9))
  {
    seq(|ids|, p requires 0 <= p < |ids| => Item(ids[p], Some(if p == first then 5 else 9)))
  }

  lemma {:induction false} RepeatDisagrees(ids: seq<Bvid>, i: nat, j: nat)
    requires i < j < |ids| && ids[i] == ids[j]
    ensures !AlwaysAgrees(ids)
  {
    var db := EMPTY.(sources := map[0 := WHOLE]);
    var items := Dated(ids, i);
    RowsAreLater(db, items, i, j);
    CutoffIsEarlier(db, items, i);
    assert FirstBaseline(db, 0) && !Agrees(db, 0, items, 0, 0);
  }

  lemma {:induction false} RowsAreLater(db: Db, items: seq<Item>, i: nat, j: nat)
    requires db == EMPTY.(sources := map[0 := WHOLE]) && i < j < |items| && items[i].bvid == items[j].bvid
    requires forall p :: 0 <= p < |items| ==> items[p].favorite == Some(if p == i then 5 else 9)
    ensures forall chosen, t :: t in RowTimes(Baseline(db, 0, items, true, 0).rows, 0, chosen) ==> t == 9
  {
    hide LatestItems;
    var latest := LatestItems(items, |items|);
    var rows := Baseline(db, 0, items, true, 0).rows;
    forall k | k in rows && k.source == 0 ensures rows[k].favorite == Some(9) {
      LastTimes(db, 0, items, Bvids(latest), 0, k);
      var p: nat :| IsLast(items, p, k.bvid) && rows[k].favorite == items[p].favorite;
      assert p != i;
    }
  }

  lemma {:induction false} CutoffIsEarlier(db: Db, items: seq<Item>, i: nat)
    requires db == EMPTY.(sources := map[0 := WHOLE]) && i < |items| && items[i].favorite == Some(5)
    ensures var cutoff := Baseline(db, 0, items, true, 0).sources[0].cutoff; cutoff.Some? && cutoff.value <= 5
  {
    hide BaselineAll;
    var latest := LatestItems(items, |items|);
    OrderedItems(items);
    var ordered := SortBy(EarlierItem, Enumerate(items));
    assert Enumerate(items)[i] == Ranked(items[i], i) && ordered[..|ordered|] == ordered;
    assert latest == ordered;
    assert 5 in Times(latest);
    BaselineCutoff(db, items, latest);
  }

  lemma {:induction false} BaselineCutoff(db: Db, items: seq<Item>, latest: seq<Ranked>)
    requires db == EMPTY.(sources := map[0 := WHOLE]) && latest == LatestItems(items, |items|)
    ensures Baseline(db, 0, items, true, 0).sources[0].cutoff == Cutoff(Times(latest), All, 0)
  {
    hide LatestItems, BaselineAll;
  }

  /** For a list of ids: the baseline and the coverage query agree for all times, policies and
      limits, if and only if no id repeats. */
  lemma {:induction false} AlwaysAgreesIff(ids: seq<Bvid>)
    ensures AlwaysAgrees(ids) <==> Distinct(ids)
  {
    if Distinct(ids) {
      forall db: Db, s: nat, items: seq<Item>, now: int, later: int | FirstBaseline(db, s) && BvidsOf(items) == ids
        ensures Agrees(db, s, items, now, later)
      {
        assert DistinctItems(items) by {
          forall i, j | 0 <= i < j < |items| ensures items[i].bvid != items[j].bvid {
            assert BvidsOf(items)[i] == items[i].bvid && BvidsOf(items)[j] == items[j].bvid;
          }
        }
        BaselineAgreesWithCoverage(db, s, items, now, later);
      }
    } else {
      var i, j :| 0 <= i < j < |ids| && ids[i] == ids[j];
      RepeatDisagrees(ids, i, j);
    }
  }
}
