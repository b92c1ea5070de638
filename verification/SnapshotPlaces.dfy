/** Stored positions over every run: where the active rows of a source stand. */
module SnapshotPlaces {
  import opened Wrappers
  import opened Orders
  import opened Collection
  import opened MembershipSafety
  import opened SnapshotReads

  predicate ActiveAt(rows: map<Place, Row>, k: Place, s: nat) {
    k in rows && k.source == s && !rows[k].removed
  }

  /** The active rows of a source stand at positions below their number. */
  ghost predicate InRange(rows: map<Place, Row>, s: nat) {
    forall k :: ActiveAt(rows, k, s) ==> 0 <= rows[k].position < |ActiveOf(rows, s)|
  }

  /** No two active rows of a source share a stored position. */
  ghost predicate Untied(rows: map<Place, Row>, s: nat) {
    forall k, l :: ActiveAt(rows, k, s) && ActiveAt(rows, l, s) && k != l ==> rows[k].position != rows[l].position
  }

  ghost predicate Settled(rows: map<Place, Row>, s: nat) {
    InRange(rows, s) && Untied(rows, s)
  }

  // ---- what a scan writes ----------------------------------------------------------------------

  /** The scanned items stand where the scan has them; every other row is as it was. */
  ghost predicate Scanned(before: map<Place, Row>, after: map<Place, Row>, s: nat, items: seq<Item>) {
    && (forall i :: 0 <= i < |items| ==> StandsAt(after, Place(s, items[i].bvid), i))
    && (forall k: Place :: k.source != s || k.bvid !in Ids(items) ==> SameRow(before, after, k))
  }

  predicate StandsAt(rows: map<Place, Row>, k: Place, i: nat) {
    k in rows && !rows[k].removed && rows[k].position == i
  }

  predicate SameRow(before: map<Place, Row>, after: map<Place, Row>, k: Place) {
    (k in after <==> k in before) && (k in before ==> after[k] == before[k])
  }

  /** One more item is scanned. */
  lemma {:induction false} ScannedSnoc(before: map<Place, Row>, mid: map<Place, Row>, after: map<Place, Row>, s: nat, items: seq<Item>)
    requires items != [] && DistinctItems(items) && Scanned(before, mid, s, items[..|items| - 1])
    requires var n := |items| - 1; var k := Place(s, items[n].bvid); StandsAt(after, k, n) && forall l :: l != k ==> SameRow(mid, after, l)
    ensures Scanned(before, after, s, items)
  {
    var n := |items| - 1;
    IdsOfPrefix(items, n);
    assert items[..n + 1] == items;
    forall i | 0 <= i < |items| ensures StandsAt(after, Place(s, items[i].bvid), i) {
      if i < n {
        assert items[..n][i] == items[i] && StandsAt(mid, Place(s, items[i].bvid), i) && items[i].bvid != items[n].bvid;
        assert SameRow(mid, after, Place(s, items[i].bvid));
      }
    }
    forall k: Place | k.source != s || k.bvid !in Ids(items) ensures SameRow(before, after, k) {
      assert SameRow(before, mid, k) && SameRow(mid, after, k);
    }
  }

  lemma {:induction false} StepPlaces(c: Db, known: map<Place, Row>, s: nat, item: Item, n: nat, now: int, k: Place)
    ensures var d := SnapshotStep(c, known, s, item, n, now);
      && (k == Place(s, item.bvid) ==> k in d.rows && !d.rows[k].removed && d.rows[k].position == n)
      && (k != Place(s, item.bvid) ==> (k in d.rows <==> k in c.rows) && (k in c.rows ==> d.rows[k] == c.rows[k]))
  {
  }

  lemma {:induction false} SnapshotScans(db: Db, known: map<Place, Row>, s: nat, items: seq<Item>, now: int)
    requires DistinctItems(items)
    ensures Scanned(db.rows, SnapshotAll(db, known, s, items, now).rows, s, items)
  {
    hide SnapshotStep;
    if items != [] {
      var n := |items| - 1;
      SnapshotScans(db, known, s, items[..n], now);
      var c := SnapshotAll(db, known, s, items[..n], now);
      var d := SnapshotStep(c, known, s, items[n], n, now);
      forall l {
        StepPlaces(c, known, s, items[n], n, now, l);
      }
      ScannedSnoc(db.rows, c.rows, d.rows, s, items);
    }
  }

  lemma {:induction false} BaselineStepPlaces(c: Db, s: nat, item: Item, n: nat, chosen: set<Bvid>, now: int, k: Place)
    ensures var d := BaselineStep(c, s, item, n, chosen, now);
      if k == Place(s, item.bvid) then StandsAt(d.rows, k, n) else SameRow(c.rows, d.rows, k)
  {
  }

  lemma {:induction false} BaselineScans(db: Db, s: nat, items: seq<Item>, chosen: set<Bvid>, now: int)
    requires DistinctItems(items)
    ensures Scanned(db.rows, BaselineAll(db, s, items, chosen, now).rows, s, items)
  {
    hide BaselineStep;
    if items != [] {
      var n := |items| - 1;
      BaselineScans(db, s, items[..n], chosen, now);
      var c := BaselineAll(db, s, items[..n], chosen, now);
      var d := BaselineStep(c, s, items[n], n, chosen, now);
      forall l {
        BaselineStepPlaces(c, s, items[n], n, chosen, now, l);
      }
      ScannedSnoc(db.rows, c.rows, d.rows, s, items);
    }
  }

  lemma {:induction false} CountIds(items: seq<Item>)
    requires DistinctItems(items)
    ensures |Ids(items)| == |items|
  {
    DistinctCount(BvidsOf(items));
    forall b ensures b in Ids(items) <==> b in Elements(BvidsOf(items)) {
      if b in Elements(BvidsOf(items)) {
        var i :| 0 <= i < |items| && BvidsOf(items)[i] == b;
        assert items[i] in items;
      }
      if b in Ids(items) {
        var i :| 0 <= i < |items| && items[i].bvid == b;
        assert BvidsOf(items)[i] == b;
      }
    }
    assert Ids(items) == Elements(BvidsOf(items));
  }

  lemma {:induction false} CountAtMost<T>(a: set<T>, b: set<T>)
    requires a <= b
    ensures |a| <= |b|
  {
    assert b == a + (b - a);
  }

  /** A scan, complete or not, leaves the rows of its source in range. */
  lemma {:induction false} ScanInRange(before: map<Place, Row>, after: map<Place, Row>, s: nat, items: seq<Item>)
    requires DistinctItems(items) && Scanned(before, after, s, items) && InRange(before, s)
    ensures InRange(after, s)
  {
    var was, active := ActiveOf(before, s), ActiveOf(after, s);
    forall b | b in was || b in Ids(items) ensures b in active {
      ScannedActive(before, after, s, items, b);
    }
    CountAtMost(was, active);
    CountIds(items);
    CountAtMost(Ids(items), active);
    forall k | ActiveAt(after, k, s) ensures 0 <= after[k].position < |active| {
      if k.bvid in Ids(items) {
        var i :| 0 <= i < |items| && items[i].bvid == k.bvid;
        assert StandsAt(after, Place(s, items[i].bvid), i) && k == Place(s, items[i].bvid);
      } else {
        assert SameRow(before, after, k) && ActiveAt(before, k, s);
      }
    }
  }

  lemma {:induction false} ScannedActive(before: map<Place, Row>, after: map<Place, Row>, s: nat, items: seq<Item>, b: Bvid)
    requires Scanned(before, after, s, items) && (b in ActiveOf(before, s) || b in Ids(items))
    ensures b in ActiveOf(after, s)
  {
    if b in Ids(items) {
      var i :| 0 <= i < |items| && items[i].bvid == b;
      assert StandsAt(after, Place(s, items[i].bvid), i);
    } else {
      assert SameRow(before, after, Place(s, b));
    }
  }

  /** Rows keep their source's range when nothing of that source moves, comes or goes. */
  lemma {:induction false} SamePlaces(before: map<Place, Row>, after: map<Place, Row>, s: nat)
    requires InRange(before, s)
    requires forall k: Place :: k.source == s ==> (ActiveAt(after, k, s) <==> ActiveAt(before, k, s)) &&
                                                  (ActiveAt(before, k, s) ==> after[k].position == before[k].position)
    ensures InRange(after, s)
  {
    forall b ensures b in ActiveOf(after, s) <==> b in ActiveOf(before, s) {
      assert ActiveAt(after, Place(s, b), s) <==> ActiveAt(before, Place(s, b), s);
    }
    assert ActiveOf(after, s) == ActiveOf(before, s);
  }

  // ---- complete scans --------------------------------------------------------------------------

  /** The active rows of a source stand at positions 0, 1, 2, ... in the order of `list`. */
  ghost predicate PackedBy(rows: map<Place, Row>, s: nat, list: seq<Bvid>) {
    && Distinct(list)
    && (forall i :: 0 <= i < |list| ==> StandsAt(rows, Place(s, list[i]), i))
    && (forall k :: ActiveAt(rows, k, s) ==> k.bvid in list)
  }

  /** Every complete scan packs its source in the order of the scan. */
  lemma {:induction false} CompleteScanPacks(db: Db, s: nat, items: seq<Item>, now: int)
    requires s in db.sources && DistinctItems(items)
    ensures PackedBy(Snapshot(db, s, items, true, now).rows, s, BvidsOf(items))
  {
    hide SnapshotAll, Recomputed;
    var list, e := BvidsOf(items), SnapshotAll(db, db.rows, s, items, now);
    SnapshotScans(db, db.rows, s, items, now);
    var rows := Unlisted(e.rows, s, Ids(items));
    assert Snapshot(db, s, items, true, now).rows == rows;
    forall i | 0 <= i < |list| ensures StandsAt(rows, Place(s, list[i]), i) {
      assert items[i] in items && StandsAt(e.rows, Place(s, items[i].bvid), i);
    }
    forall k | ActiveAt(rows, k, s) ensures k.bvid in list {
      var i :| 0 <= i < |items| && items[i].bvid == k.bvid;
      assert list[i] == k.bvid;
    }
  }

  lemma {:induction false} PackedIsSettled(rows: map<Place, Row>, s: nat, list: seq<Bvid>)
    requires PackedBy(rows, s, list)
    ensures Settled(rows, s)
  {
    DistinctCount(list);
    forall b ensures b in ActiveOf(rows, s) <==> b in Elements(list) {
      if b in Elements(list) {
        var i :| 0 <= i < |list| && list[i] == b;
        assert StandsAt(rows, Place(s, list[i]), i);
      }
    }
    assert ActiveOf(rows, s) == Elements(list);
    forall k | ActiveAt(rows, k, s) ensures exists i :: 0 <= i < |list| && k == Place(s, list[i]) && rows[k].position == i {
      var i :| 0 <= i < |list| && list[i] == k.bvid;
      assert StandsAt(rows, Place(s, list[i]), i);
    }
  }

  // ---- every run -------------------------------------------------------------------------------

  /** The scans of a run list each video once, as the program's reader of scans hands them on. */
  ghost predicate DistinctScans(ops: seq<Op>) {
    forall n :: 0 <= n < |ops| ==> ScansOnce(ops[n])
  }

  ghost predicate ScansOnce(op: Op) {
    op.ScanBaseline? || op.ScanSnapshot? ==> DistinctItems(op.items)
  }

  ghost predicate AllInRange(db: Db) {
    forall s: nat :: InRange(db.rows, s)
  }

  lemma {:induction false} ScanAllInRange(before: map<Place, Row>, after: map<Place, Row>, s: nat, items: seq<Item>, t: nat)
    requires DistinctItems(items) && Scanned(before, after, s, items) && InRange(before, t)
    ensures InRange(after, t)
  {
    if t == s {
      ScanInRange(before, after, s, items);
    } else {
      hide InRange;
      forall k: Place | k.source == t
        ensures (ActiveAt(after, k, t) <==> ActiveAt(before, k, t)) && (ActiveAt(before, k, t) ==> after[k].position == before[k].position)
      {
        assert SameRow(before, after, k);
      }
      SamePlaces(before, after, t);
    }
  }

  lemma {:induction false} SnapshotInRange(db: Db, s: nat, items: seq<Item>, authoritative: bool, now: int, t: nat)
    requires s in db.sources && DistinctItems(items) && InRange(db.rows, t)
    ensures InRange(Snapshot(db, s, items, authoritative, now).rows, t)
  {
    hide SnapshotAll, InRange, Recomputed;
    var e := SnapshotAll(db, db.rows, s, items, now);
    SnapshotScans(db, db.rows, s, items, now);
    if authoritative && t == s {
      CompleteScanPacks(db, s, items, now);
      PackedIsSettled(Snapshot(db, s, items, true, now).rows, s, BvidsOf(items));
    } else {
      ScanAllInRange(db.rows, e.rows, s, items, t);
      SamePlaces(e.rows, Snapshot(db, s, items, authoritative, now).rows, t);
    }
  }

  lemma {:induction false} BaselineInRange(db: Db, s: nat, items: seq<Item>, authoritative: bool, now: int, t: nat)
    requires s in db.sources && DistinctItems(items) && InRange(db.rows, t)
    ensures InRange(Baseline(db, s, items, authoritative, now).rows, t)
  {
    hide BaselineAll, InRange, LatestItems;
    var chosen := Bvids(if authoritative then LatestItems(items, HistorySize(db.sources[s], |items|)) else []);
    BaselineScans(db, s, items, chosen, now);
    ScanAllInRange(db.rows, BaselineAll(db, s, items, chosen, now).rows, s, items, t);
  }

  /** Transactions that are no scans move no row. */
  lemma {:induction false} OthersInRange(db: Db, op: Op, t: nat)
    requires !op.ScanBaseline? && !op.ScanSnapshot? && InRange(db.rows, t)
    ensures InRange(Apply(db, op).rows, t)
  {
    hide InRange;
    if op.DropSource? && op.s == t {
      EmptyInRange(Apply(db, op).rows, t);
    } else {
      SamePlaces(db.rows, Apply(db, op).rows, t);
    }
  }

  lemma {:induction false} EmptyInRange(rows: map<Place, Row>, s: nat)
    requires forall k :: k in rows ==> k.source != s
    ensures InRange(rows, s)
  {
  }

  lemma {:induction false} StepInRange(db: Db, op: Op, t: nat)
    requires ScansOnce(op) && InRange(db.rows, t)
    ensures InRange(Apply(db, op).rows, t)
  {
    hide InRange, Baseline, Snapshot;
    if op.ScanBaseline? && op.s in db.sources {
      BaselineInRange(db, op.s, op.items, op.authoritative, op.now, t);
    } else if op.ScanSnapshot? && op.s in db.sources {
      SnapshotInRange(db, op.s, op.items, op.authoritative, op.now, t);
    } else if !op.ScanBaseline? && !op.ScanSnapshot? {
      OthersInRange(db, op, t);
    }
  }

  /** After every run the active rows of every source stand below their number. */
  lemma {:induction false} RunsStayInRange(ops: seq<Op>, s: nat)
    requires DistinctScans(ops)
    ensures InRange(After(EMPTY, ops).rows, s)
  {
    if ops == [] {
      EmptyInRange(EMPTY.rows, s);
    } else {
      var init := ops[..|ops| - 1];
      assert forall n :: 0 <= n < |init| ==> init[n] == ops[n];
      RunsStayInRange(init, s);
      assert ScansOnce(ops[|ops| - 1]);
      StepInRange(After(EMPTY, init), ops[|ops| - 1], s);
    }
  }

  // ---- the place of an old item ----------------------------------------------------------------

  /** The old items before the `i`-th item. */
  function OldPlaces(db: Db, s: nat, items: seq<Item>, i: nat): set<Bvid>
    requires i <= |items|
  {
    if i == 0 then {}
    else if IsOld(db, s, items[i - 1]) then OldPlaces(db, s, items, i - 1) + {items[i - 1].bvid}
    else OldPlaces(db, s, items, i - 1)
  }

  lemma {:induction false} InOldPlaces(db: Db, s: nat, items: seq<Item>, i: nat, b: Bvid)
    requires i <= |items|
    ensures b in OldPlaces(db, s, items, i) <==> exists j :: 0 <= j < i && IsOld(db, s, items[j]) && items[j].bvid == b
  {
    if i > 0 {
      InOldPlaces(db, s, items, i - 1, b);
    }
  }

  lemma {:induction false} CountOld(db: Db, s: nat, items: seq<Item>, i: nat)
    requires DistinctItems(items) && i <= |items|
    ensures |OldPlaces(db, s, items, i)| == OldBefore(db, s, items, i)
  {
    if i > 0 {
      CountOld(db, s, items, i - 1);
      InOldPlaces(db, s, items, i - 1, items[i - 1].bvid);
    }
  }

  /** The old items of a scan that only inserts are the active rows of its source. */
  lemma {:induction false} OldAreActive(db: Db, s: nat, items: seq<Item>)
    requires InsertOnly(db, s, items)
    ensures OldBefore(db, s, items, |items|) == |ActiveOf(db.rows, s)|
  {
    CountOld(db, s, items, |items|);
    forall b ensures b in OldPlaces(db, s, items, |items|) <==> b in ActiveOf(db.rows, s) {
      InOldPlaces(db, s, items, |items|, b);
      if b in ActiveOf(db.rows, s) {
        assert Place(s, b) in db.rows;
        var j :| 0 <= j < |items| && items[j].bvid == b;
        assert IsOld(db, s, items[j]);
      }
    }
    assert OldPlaces(db, s, items, |items|) == ActiveOf(db.rows, s);
  }

  /** Untied old items stand in strictly rising positions. */
  lemma {:induction false} OldRise(db: Db, s: nat, items: seq<Item>, i: nat, j: nat)
    requires InsertOnly(db, s, items) && Untied(db.rows, s) && i < j < |items| && IsOld(db, s, items[i]) && IsOld(db, s, items[j])
    ensures db.rows[Place(s, items[i].bvid)].position < db.rows[Place(s, items[j].bvid)].position
  {
    assert ActiveAt(db.rows, Place(s, items[i].bvid), s) && ActiveAt(db.rows, Place(s, items[j].bvid), s);
  }

  lemma {:induction false} NotBelow(db: Db, s: nat, items: seq<Item>, m: nat, i: nat)
    requires InsertOnly(db, s, items) && Settled(db.rows, s) && m <= i < |items| && IsOld(db, s, items[i])
    ensures db.rows[Place(s, items[i].bvid)].position >= OldBefore(db, s, items, m)
  {
    assert ActiveAt(db.rows, Place(s, items[i].bvid), s);
    if m > 0 {
      NotBelow(db, s, items, m - 1, i);
      if IsOld(db, s, items[m - 1]) {
        NotBelow(db, s, items, m - 1, m - 1);
        OldRise(db, s, items, m - 1, i);
      }
    }
  }

  lemma {:induction false} NotAbove(db: Db, s: nat, items: seq<Item>, m: nat, i: nat)
    requires InsertOnly(db, s, items) && Settled(db.rows, s) && i < m <= |items| && IsOld(db, s, items[i])
    ensures db.rows[Place(s, items[i].bvid)].position < OldBefore(db, s, items, m)
    decreases |items| - m
  {
    if m == |items| {
      OldAreActive(db, s, items);
      assert ActiveAt(db.rows, Place(s, items[i].bvid), s);
    } else {
      NotAbove(db, s, items, m + 1, i);
      if IsOld(db, s, items[m]) {
        NotAbove(db, s, items, m + 1, m);
        OldRise(db, s, items, i, m);
      }
    }
  }

  /** In a settled source the stored position of an old item is its place among the old items. */
  lemma {:induction false} SettledPlace(db: Db, s: nat, items: seq<Item>, i: nat)
    requires InsertOnly(db, s, items) && Settled(db.rows, s) && i < |items| && IsOld(db, s, items[i])
    ensures db.rows[Place(s, items[i].bvid)].position == OldBefore(db, s, items, i)
  {
    NotBelow(db, s, items, i, i);
    NotAbove(db, s, items, i + 1, i);
  }

  lemma {:induction false} OldBeforeRises(db: Db, s: nat, items: seq<Item>, i: nat, j: nat)
    requires i < j <= |items| && IsOld(db, s, items[i])
    ensures OldBefore(db, s, items, i) < OldBefore(db, s, items, j)
  {
    if i + 1 < j {
      OldBeforeRises(db, s, items, i, j - 1);
    }
  }

  /** Positions that are places are not shared. */
  lemma {:induction false} PlacesAreUntied(db: Db, s: nat, items: seq<Item>)
    requires InsertOnly(db, s, items)
    requires forall i :: 0 <= i < |items| && IsOld(db, s, items[i]) ==> db.rows[Place(s, items[i].bvid)].position == OldBefore(db, s, items, i)
    ensures Untied(db.rows, s)
  {
    forall k, l | ActiveAt(db.rows, k, s) && ActiveAt(db.rows, l, s) && k != l ensures db.rows[k].position != db.rows[l].position {
      var i :| 0 <= i < |items| && items[i].bvid == k.bvid;
      var j :| 0 <= j < |items| && items[j].bvid == l.bvid;
      assert k == Place(s, items[i].bvid) && l == Place(s, items[j].bvid);
      assert IsOld(db, s, items[i]) && IsOld(db, s, items[j]);
      OldBeforeRises(db, s, items, if i < j then i else j, if i < j then j else i);
    }
  }
}
