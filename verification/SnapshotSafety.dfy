/** A reader walks one snapshot while complete scans insert rows between its pages. */
module SnapshotSafety {
  import opened Wrappers
  import opened Orders
  import opened Collection
  import opened MembershipSafety
  import opened Paging
  import opened SnapshotReads
  import opened SnapshotPlaces

  // ---- one scan --------------------------------------------------------------------------------

  /** The sweep that ends an insert-only scan removes nothing. */
  lemma {:induction false} SyncRows(db: Db, s: nat, items: seq<Item>, now: int)
    requires Sound(db) && InsertOnly(db, s, items)
    ensures Effect(db, Snapshot(db, s, items, true, now), s, items, |items|)
  {
    var e := SnapshotAll(db, db.rows, s, items, now);
    assert Effect(db, e, s, items, |items|) by {
      var d := ScanEffect(db, s, items, |items|, now);
      assert items[..|items|] == items;
    }
    SweepIsIdle(db, e, s, items);
  }

  lemma {:induction false} SweepIsIdle(db: Db, e: Db, s: nat, items: seq<Item>)
    requires InsertOnly(db, s, items) && Effect(db, e, s, items, |items|)
    ensures Unlisted(e.rows, s, Ids(items)) == e.rows
  {
    assert items[..|items|] == items;
  }

  /** The places of the never-seen items before the `i`-th item. */
  function NewPlaces(db: Db, s: nat, items: seq<Item>, i: nat): set<Place>
    requires i <= |items|
  {
    if i == 0 then {}
    else if IsOld(db, s, items[i - 1]) then NewPlaces(db, s, items, i - 1)
    else NewPlaces(db, s, items, i - 1) + {Place(s, items[i - 1].bvid)}
  }

  lemma {:induction false} InNewPlaces(db: Db, s: nat, items: seq<Item>, i: nat, l: Place)
    requires i <= |items|
    ensures l in NewPlaces(db, s, items, i) <==> exists j :: 0 <= j < i && !IsOld(db, s, items[j]) && l == Place(s, items[j].bvid)
  {
    if i > 0 {
      InNewPlaces(db, s, items, i - 1, l);
    }
  }

  lemma {:induction false} CountNew(db: Db, s: nat, items: seq<Item>, i: nat)
    requires DistinctItems(items) && i <= |items|
    ensures |NewPlaces(db, s, items, i)| == i - OldBefore(db, s, items, i)
  {
    if i > 0 {
      CountNew(db, s, items, i - 1);
      InNewPlaces(db, s, items, i - 1, Place(s, items[i - 1].bvid));
    }
  }

  /** The counted rows are told from the old ones that tie with them: nothing ties, or nothing of
      before the scan is counted. */
  ghost predicate Comparable(db: Db, s: nat, snapshot: nat) {
    Untied(db.rows, s) || (Numbered(db) && snapshot == db.highwater)
  }

  /** The rows counted against an old row are those counted before the scan, and the new ones put
      before it. */
  lemma {:induction false} NewerSplit(db: Db, d: Db, s: nat, items: seq<Item>, i: nat, snapshot: nat)
    requires InsertOnly(db, s, items) && RowEffect(db, d.rows, s, items, |items|) && snapshot <= db.highwater
    requires Comparable(db, s, snapshot)
    requires i < |items| && IsOld(db, s, items[i])
    ensures var k := Place(s, items[i].bvid);
      && k in d.rows
      && NewerBefore(d.rows, k, snapshot) == NewerBefore(db.rows, k, snapshot) + NewPlaces(db, s, items, i)
      && NewerBefore(db.rows, k, snapshot) !! NewPlaces(db, s, items, i)
  {
    var k := Place(s, items[i].bvid);
    assert PlacedAt(db, d.rows, s, items[i], i);
    var before, after, inserted := NewerBefore(db.rows, k, snapshot), NewerBefore(d.rows, k, snapshot), NewPlaces(db, s, items, i);
    forall l | l in after ensures l in before + inserted {
      NewerComesFrom(db, d, s, items, i, snapshot, l);
    }
    forall l | l in before ensures l in after {
      CountedStays(db, d, s, items, i, snapshot, l);
    }
    forall l | l in inserted ensures l in after && l !in before {
      InsertedCounts(db, d, s, items, i, snapshot, l);
    }
  }

  lemma {:induction false} CountedStays(db: Db, d: Db, s: nat, items: seq<Item>, i: nat, snapshot: nat, l: Place)
    requires InsertOnly(db, s, items) && RowEffect(db, d.rows, s, items, |items|)
    requires i < |items| && IsOld(db, s, items[i]) && Place(s, items[i].bvid) in d.rows
    requires l in NewerBefore(db.rows, Place(s, items[i].bvid), snapshot)
    ensures l in NewerBefore(d.rows, Place(s, items[i].bvid), snapshot)
  {
    var j := OldItem(db, s, items, l);
    assert j < i;
    hide InsertOnly, RowEffect;
    OldMoved(db, d, s, items, i);
    OldMoved(db, d, s, items, j);
  }

  lemma {:induction false} OldMoved(db: Db, d: Db, s: nat, items: seq<Item>, i: nat)
    requires RowEffect(db, d.rows, s, items, |items|) && i < |items| && IsOld(db, s, items[i])
    ensures var k := Place(s, items[i].bvid); k in d.rows && d.rows[k] == db.rows[k].(position := i)
  {
    assert PlacedAt(db, d.rows, s, items[i], i);
  }

  lemma {:induction false} InsertedCounts(db: Db, d: Db, s: nat, items: seq<Item>, i: nat, snapshot: nat, l: Place)
    requires InsertOnly(db, s, items) && RowEffect(db, d.rows, s, items, |items|) && snapshot <= db.highwater
    requires i < |items| && IsOld(db, s, items[i]) && Place(s, items[i].bvid) in d.rows && l in NewPlaces(db, s, items, i)
    ensures l in NewerBefore(d.rows, Place(s, items[i].bvid), snapshot) && l !in NewerBefore(db.rows, Place(s, items[i].bvid), snapshot)
  {
    assert PlacedAt(db, d.rows, s, items[i], i);
    InNewPlaces(db, s, items, i, l);
    var j :| 0 <= j < i && !IsOld(db, s, items[j]) && l == Place(s, items[j].bvid);
    assert PlacedAt(db, d.rows, s, items[j], j) && NeverSeen(db, items[j]);
  }

  lemma {:induction false} NewerComesFrom(db: Db, d: Db, s: nat, items: seq<Item>, i: nat, snapshot: nat, l: Place)
    requires InsertOnly(db, s, items) && RowEffect(db, d.rows, s, items, |items|) && snapshot <= db.highwater
    requires Comparable(db, s, snapshot)
    requires i < |items| && IsOld(db, s, items[i]) && Place(s, items[i].bvid) in d.rows
    requires l in NewerBefore(d.rows, Place(s, items[i].bvid), snapshot)
    ensures l in NewerBefore(db.rows, Place(s, items[i].bvid), snapshot) || l in NewPlaces(db, s, items, i)
  {
    assert items[..|items|] == items;
    InNewPlaces(db, s, items, i, l);
    assert PlacedAt(db, d.rows, s, items[i], i);
    if l.bvid in Ids(items) {
      var j :| 0 <= j < |items| && items[j].bvid == l.bvid;
      assert PlacedAt(db, d.rows, s, items[j], j) && l == Place(s, items[j].bvid);
      assert j < i;
      if IsOld(db, s, items[j]) && Untied(db.rows, s) {
        OldRise(db, s, items, j, i);
      }
    }
  }

  /** How far a scan moves the snapshot position of an old row. */
  lemma {:induction false} PositionShift(db: Db, d: Db, s: nat, items: seq<Item>, i: nat, snapshot: nat)
    requires InsertOnly(db, s, items) && RowEffect(db, d.rows, s, items, |items|) && snapshot <= db.highwater
    requires Comparable(db, s, snapshot)
    requires i < |items| && IsOld(db, s, items[i])
    ensures var k := Place(s, items[i].bvid);
      && k in d.rows
      && SnapshotPosition(d.rows, k, snapshot) - SnapshotPosition(db.rows, k, snapshot) == OldBefore(db, s, items, i) - db.rows[k].position
  {
    var k := Place(s, items[i].bvid);
    assert PlacedAt(db, d.rows, s, items[i], i);
    NewerSplit(db, d, s, items, i, snapshot);
    CountNew(db, s, items, i);
    assert |NewerBefore(d.rows, k, snapshot)| == |NewerBefore(db.rows, k, snapshot)| + |NewPlaces(db, s, items, i)|;
  }

  /** After a scan every old row stands, at the snapshot just before it, at its place in the old
      list; before the scan it stood at its stored position. */
  lemma {:induction false} PositionBecomesPlace(db: Db, d: Db, s: nat, items: seq<Item>, i: nat)
    requires Numbered(db) && InsertOnly(db, s, items) && RowEffect(db, d.rows, s, items, |items|) && i < |items| && IsOld(db, s, items[i])
    ensures var k := Place(s, items[i].bvid);
      && k in d.rows && SnapshotPosition(d.rows, k, db.highwater) == OldBefore(db, s, items, i)
      && SnapshotPosition(db.rows, k, db.highwater) == db.rows[k].position
  {
    var k := Place(s, items[i].bvid);
    PositionShift(db, d, s, items, i, db.highwater);
    assert NewerBefore(db.rows, k, db.highwater) == {};
  }

  /** The row of the `i`-th item has the same position at the snapshot in both states. */
  ghost predicate KeepsPosition(db: Db, d: Db, k: Place, snapshot: nat) {
    k in db.rows && k in d.rows && SnapshotPosition(d.rows, k, snapshot) == SnapshotPosition(db.rows, k, snapshot)
  }

  /** When a scan keeps positions: after any run whose scans list each video once, a complete scan
      that only inserts keeps the snapshot position of every old row, if and only if no two active
      rows of the source share a stored position. */
  lemma {:induction false} PositionsKeptIff(pre: seq<Op>, s: nat, items: seq<Item>, now: int)
    requires DistinctScans(pre) && InsertOnly(After(EMPTY, pre), s, items)
    ensures var db := After(EMPTY, pre); var d := Snapshot(db, s, items, true, now);
      (forall k :: ActiveAt(db.rows, k, s) ==> KeepsPosition(db, d, k, db.highwater)) <==> Untied(db.rows, s)
  {
    var db := After(EMPTY, pre);
    var d := Snapshot(db, s, items, true, now);
    RunsKeepSound(pre);
    RunsStayInRange(pre, s);
    SyncRows(db, s, items, now);
    KeptIffPlaces(db, d, s, items);
    if Untied(db.rows, s) {
      forall i | 0 <= i < |items| && IsOld(db, s, items[i]) ensures AtPlace(db, s, items, i) {
        SettledPlace(db, s, items, i);
      }
    } else if forall i :: 0 <= i < |items| && IsOld(db, s, items[i]) ==> AtPlace(db, s, items, i) {
      PlacesAreUntied(db, s, items);
    }
  }

  ghost predicate AtPlace(db: Db, s: nat, items: seq<Item>, i: nat)
    requires i < |items| && IsOld(db, s, items[i])
  {
    db.rows[Place(s, items[i].bvid)].position == OldBefore(db, s, items, i)
  }

  lemma {:induction false} KeptIffPlaces(db: Db, d: Db, s: nat, items: seq<Item>)
    requires Numbered(db) && InsertOnly(db, s, items) && RowEffect(db, d.rows, s, items, |items|)
    ensures (forall k :: ActiveAt(db.rows, k, s) ==> KeepsPosition(db, d, k, db.highwater)) <==>
            forall i :: 0 <= i < |items| && IsOld(db, s, items[i]) ==> AtPlace(db, s, items, i)
  {
    forall i | 0 <= i < |items| && IsOld(db, s, items[i])
      ensures KeepsPosition(db, d, Place(s, items[i].bvid), db.highwater) <==> AtPlace(db, s, items, i)
    {
      PositionBecomesPlace(db, d, s, items, i);
    }
    forall k | ActiveAt(db.rows, k, s) ensures exists i :: 0 <= i < |items| && IsOld(db, s, items[i]) && k == Place(s, items[i].bvid) {
      var i := OldItem(db, s, items, k);
    }
    forall i | 0 <= i < |items| && IsOld(db, s, items[i]) ensures ActiveAt(db.rows, Place(s, items[i].bvid), s) {
    }
  }

  // ---- what a reader sees ----------------------------------------------------------------------

  predicate Seen(db: Db, k: Place, snapshot: nat) {
    k in db.rows && k.bvid in db.videos && !db.rows[k].removed && db.rows[k].linked && db.rows[k].number <= snapshot
  }

  /** Both states show the same cards at the snapshot, under the same keys. */
  ghost predicate SameAt(db: Db, d: Db, snapshot: nat) {
    && (forall k :: Seen(db, k, snapshot) <==> Seen(d, k, snapshot))
    && (forall k :: Seen(db, k, snapshot) && Seen(d, k, snapshot) ==>
          SameFace(db.videos[k.bvid], d.videos[k.bvid]) && KeyOf(db, k, snapshot) == KeyOf(d, k, snapshot))
  }

  /** The favourite times of the rows of the snapshot are known. */
  ghost predicate Timed(db: Db, snapshot: nat) {
    forall k :: k in db.rows && db.rows[k].number <= snapshot && !db.rows[k].removed ==> db.rows[k].favorite.Some?
  }

  lemma {:induction false} SeenKept(db: Db, d: Db, s: nat, items: seq<Item>, snapshot: nat, k: Place)
    requires Sound(db) && InsertOnly(db, s, items) && Effect(db, d, s, items, |items|) && snapshot <= db.highwater
    ensures Seen(db, k, snapshot) <==> Seen(d, k, snapshot)
    ensures Seen(db, k, snapshot) ==> SameFace(db.videos[k.bvid], d.videos[k.bvid]) && d.rows[k].favorite == db.rows[k].favorite
    ensures k in d.rows && d.rows[k].number <= snapshot ==> k in db.rows && d.rows[k].removed == db.rows[k].removed && d.rows[k].favorite == db.rows[k].favorite
  {
    assert items[..|items|] == items;
    if k.source == s && k.bvid in Ids(items) {
      var j :| 0 <= j < |items| && items[j].bvid == k.bvid;
      assert PlacedAt(db, d.rows, s, items[j], j) && k == Place(s, items[j].bvid);
    }
  }

  /** A row of the scanned source keeps its snapshot position. */
  lemma {:induction false} ScannedKept(db: Db, d: Db, s: nat, items: seq<Item>, snapshot: nat, k: Place)
    requires InsertOnly(db, s, items) && Settled(db.rows, s) && snapshot <= db.highwater
    requires Effect(db, d, s, items, |items|) && Seen(db, k, snapshot) && k.source == s
    ensures k in d.rows && SnapshotPosition(d.rows, k, snapshot) == SnapshotPosition(db.rows, k, snapshot)
  {
    var i := OldItem(db, s, items, k);
    assert Untied(db.rows, s);
    hide Settled, Untied, SnapshotPosition, InsertOnly;
    PositionShift(db, d, s, items, i, snapshot);
    SettledPlace(db, s, items, i);
  }

  lemma {:induction false} OldItem(db: Db, s: nat, items: seq<Item>, k: Place) returns (i: nat)
    requires InsertOnly(db, s, items) && ActiveAt(db.rows, k, s)
    ensures i < |items| && IsOld(db, s, items[i]) && k == Place(s, items[i].bvid)
  {
    i :| 0 <= i < |items| && items[i].bvid == k.bvid;
    assert k == Place(s, items[i].bvid);
  }

  lemma {:induction false} KeyKept(db: Db, d: Db, s: nat, items: seq<Item>, snapshot: nat, k: Place)
    requires Sound(db) && InsertOnly(db, s, items) && Settled(db.rows, s) && Timed(db, snapshot) && snapshot <= db.highwater
    requires Effect(db, d, s, items, |items|) && Seen(db, k, snapshot) && Seen(d, k, snapshot)
    ensures KeyOf(d, k, snapshot) == KeyOf(db, k, snapshot)
  {
    hide Settled, InsertOnly;
    assert SameFace(db.videos[k.bvid], d.videos[k.bvid]) && d.rows[k].favorite == db.rows[k].favorite by {
      SeenKept(db, d, s, items, snapshot, k);
    }
    assert SnapshotPosition(d.rows, k, snapshot) == SnapshotPosition(db.rows, k, snapshot) by {
      if k.source == s {
        ScannedKept(db, d, s, items, snapshot, k);
      } else {
        assert NewerBefore(d.rows, k, snapshot) == NewerBefore(db.rows, k, snapshot);
      }
    }
  }

  lemma {:induction false} SettledSyncKeeps(db: Db, s: nat, items: seq<Item>, now: int, snapshot: nat) returns (d: Db)
    requires Sound(db) && InsertOnly(db, s, items) && Settled(db.rows, s) && Timed(db, snapshot) && snapshot <= db.highwater
    ensures d == Snapshot(db, s, items, true, now)
    ensures SameAt(db, d, snapshot) && Timed(d, snapshot) && snapshot <= d.highwater
  {
    d := Snapshot(db, s, items, true, now);
    SyncRows(db, s, items, now);
    forall k ensures Seen(db, k, snapshot) <==> Seen(d, k, snapshot) {
      SeenKept(db, d, s, items, snapshot, k);
    }
    forall k | Seen(db, k, snapshot) && Seen(d, k, snapshot)
      ensures SameFace(db.videos[k.bvid], d.videos[k.bvid]) && KeyOf(db, k, snapshot) == KeyOf(d, k, snapshot)
    {
      SeenKept(db, d, s, items, snapshot, k);
      KeyKept(db, d, s, items, snapshot, k);
    }
    forall k | k in d.rows && d.rows[k].number <= snapshot && !d.rows[k].removed ensures d.rows[k].favorite.Some? {
      SeenKept(db, d, s, items, snapshot, k);
    }
  }

  /** After any run whose scans list each video once: a complete scan that only inserts keeps every
      row of an earlier snapshot at its exact key, and shows no other row, when no two active rows
      of its source share a stored position. */
  lemma {:induction false} SyncKeepsCards(pre: seq<Op>, s: nat, items: seq<Item>, now: int, snapshot: nat)
    requires DistinctScans(pre) && InsertOnly(After(EMPTY, pre), s, items) && Untied(After(EMPTY, pre).rows, s)
    requires Timed(After(EMPTY, pre), snapshot) && snapshot <= After(EMPTY, pre).highwater
    ensures SameAt(After(EMPTY, pre), Snapshot(After(EMPTY, pre), s, items, true, now), snapshot)
  {
    RunsKeepSound(pre);
    RunsStayInRange(pre, s);
    var d := SettledSyncKeeps(After(EMPTY, pre), s, items, now, snapshot);
  }

  /** For one scan and the snapshot just before it, exactly: all cards keep their keys if and only
      if every linked row of the source stands at its place in the old list. */
  lemma {:induction false} CardsKeptIff(pre: seq<Op>, s: nat, items: seq<Item>, now: int)
    requires InsertOnly(After(EMPTY, pre), s, items) && Timed(After(EMPTY, pre), After(EMPTY, pre).highwater)
    ensures var db := After(EMPTY, pre);
      SameAt(db, Snapshot(db, s, items, true, now), db.highwater) <==>
      forall i :: 0 <= i < |items| && IsOld(db, s, items[i]) && db.rows[Place(s, items[i].bvid)].linked ==> AtPlace(db, s, items, i)
  {
    var db := After(EMPTY, pre);
    var d := Snapshot(db, s, items, true, now);
    RunsKeepSound(pre);
    SyncRows(db, s, items, now);
    forall k ensures Seen(db, k, db.highwater) <==> Seen(d, k, db.highwater) {
      SeenKept(db, d, s, items, db.highwater, k);
    }
    forall k | Seen(db, k, db.highwater) && Seen(d, k, db.highwater)
      ensures CardKept(db, d, k) <==> (k.source == s ==> KeepsPosition(db, d, k, db.highwater))
    {
      KeyKeptIff(db, d, s, items, k);
    }
    forall i | 0 <= i < |items| && IsOld(db, s, items[i])
      ensures KeepsPosition(db, d, Place(s, items[i].bvid), db.highwater) <==> AtPlace(db, s, items, i)
    {
      PositionBecomesPlace(db, d, s, items, i);
    }
    KeptCards(db, d, s, items);
  }

  ghost predicate CardKept(db: Db, d: Db, k: Place)
    requires Seen(db, k, db.highwater) && Seen(d, k, db.highwater)
  {
    SameFace(db.videos[k.bvid], d.videos[k.bvid]) && KeyOf(db, k, db.highwater) == KeyOf(d, k, db.highwater)
  }

  lemma {:induction false} KeyKeptIff(db: Db, d: Db, s: nat, items: seq<Item>, k: Place)
    requires Sound(db) && InsertOnly(db, s, items) && Effect(db, d, s, items, |items|) && Timed(db, db.highwater)
    requires Seen(db, k, db.highwater) && Seen(d, k, db.highwater)
    ensures CardKept(db, d, k) <==> (k.source == s ==> KeepsPosition(db, d, k, db.highwater))
  {
    SeenKept(db, d, s, items, db.highwater, k);
    hide InsertOnly;
    if k.source != s {
      assert NewerBefore(d.rows, k, db.highwater) == NewerBefore(db.rows, k, db.highwater);
    }
  }

  lemma {:induction false} KeptCards(db: Db, d: Db, s: nat, items: seq<Item>)
    requires Sound(db) && InsertOnly(db, s, items)
    requires forall k :: Seen(db, k, db.highwater) <==> Seen(d, k, db.highwater)
    requires forall k :: Seen(db, k, db.highwater) && Seen(d, k, db.highwater) ==>
      (CardKept(db, d, k) <==> (k.source == s ==> KeepsPosition(db, d, k, db.highwater)))
    requires forall i :: 0 <= i < |items| && IsOld(db, s, items[i]) ==>
      (KeepsPosition(db, d, Place(s, items[i].bvid), db.highwater) <==> AtPlace(db, s, items, i))
    ensures SameAt(db, d, db.highwater) <==>
      forall i :: 0 <= i < |items| && IsOld(db, s, items[i]) && db.rows[Place(s, items[i].bvid)].linked ==> AtPlace(db, s, items, i)
  {
    if SameAt(db, d, db.highwater) {
      forall i | 0 <= i < |items| && IsOld(db, s, items[i]) && db.rows[Place(s, items[i].bvid)].linked ensures AtPlace(db, s, items, i) {
        var k := Place(s, items[i].bvid);
        assert Seen(db, k, db.highwater) && CardKept(db, d, k);
      }
    } else if forall i :: 0 <= i < |items| && IsOld(db, s, items[i]) && db.rows[Place(s, items[i].bvid)].linked ==> AtPlace(db, s, items, i) {
      forall k | Seen(db, k, db.highwater) && Seen(d, k, db.highwater) ensures CardKept(db, d, k) {
        if k.source == s {
          var i := OldItem(db, s, items, k);
        }
      }
    }
  }

  lemma {:induction false} SettledKept(db: Db, s: nat, items: seq<Item>, now: int, t: nat)
    requires Sound(db) && InsertOnly(db, s, items) && (t != s ==> Settled(db.rows, t))
    ensures Settled(Snapshot(db, s, items, true, now).rows, t)
  {
    var d := Snapshot(db, s, items, true, now);
    if t == s {
      CompleteScanPacks(db, s, items, now);
      PackedIsSettled(d.rows, s, BvidsOf(items));
    } else {
      SyncRows(db, s, items, now);
      forall k: Place | k.source == t ensures SameRow(db.rows, d.rows, k) {
      }
      OtherSettled(db.rows, d.rows, t);
    }
  }

  lemma {:induction false} OtherSettled(before: map<Place, Row>, after: map<Place, Row>, t: nat)
    requires Settled(before, t) && forall k: Place :: k.source == t ==> SameRow(before, after, k)
    ensures Settled(after, t)
  {
    forall k: Place | k.source == t
      ensures (ActiveAt(after, k, t) <==> ActiveAt(before, k, t)) && (ActiveAt(before, k, t) ==> after[k].position == before[k].position)
    {
      assert SameRow(before, after, k);
    }
    SamePlaces(before, after, t);
  }

  /** Complete scans, each of which only inserts. */
  ghost predicate Syncs(db: Db, ops: seq<Op>) {
    forall n :: 0 <= n < |ops| ==>
      ops[n].ScanSnapshot? && ops[n].authoritative && InsertOnly(After(db, ops[..n]), ops[n].s, ops[n].items)
  }

  ghost predicate AllSettled(db: Db, ops: seq<Op>) {
    forall n :: 0 <= n < |ops| && ops[n].ScanSnapshot? ==> Settled(db.rows, ops[n].s)
  }

  ghost predicate SnapshotHolds(db: Db, d: Db, ops: seq<Op>) {
    Sound(d) && SameAt(db, d, db.highwater) && Timed(d, db.highwater) && db.highwater <= d.highwater && AllSettled(d, ops)
  }

  lemma {:induction false} SameAtComposes(a: Db, b: Db, c: Db, snapshot: nat)
    requires SameAt(a, b, snapshot) && SameAt(b, c, snapshot)
    ensures SameAt(a, c, snapshot)
  {
  }

  lemma {:induction false} ScanSettles(c: Db, s: nat, items: seq<Item>, now: int, ops: seq<Op>) returns (d: Db)
    requires InsertOnly(c, s, items) && Sound(c) && AllSettled(c, ops)
    ensures d == Snapshot(c, s, items, true, now) && AllSettled(d, ops)
  {
    d := Snapshot(c, s, items, true, now);
    forall m | 0 <= m < |ops| && ops[m].ScanSnapshot? ensures Settled(d.rows, ops[m].s) {
      SettledKept(c, s, items, now, ops[m].s);
    }
  }

  lemma {:induction false} ScanSound(c: Db, s: nat, items: seq<Item>, now: int) returns (d: Db)
    requires s in c.sources && Sound(c)
    ensures d == Snapshot(c, s, items, true, now) && Sound(d)
  {
    SnapshotKeeps(c, s, items, true, now);
    d := Snapshot(c, s, items, true, now);
  }

  lemma {:induction false} ScanKeepsSnapshot(db: Db, c: Db, ops: seq<Op>, s: nat, items: seq<Item>, now: int) returns (d: Db)
    requires SnapshotHolds(db, c, ops) && InsertOnly(c, s, items) && Settled(c.rows, s)
    ensures d == Snapshot(c, s, items, true, now) && SnapshotHolds(db, d, ops)
  {
    d := SettledSyncKeeps(c, s, items, now, db.highwater);
    var e := ScanSettles(c, s, items, now, ops);
    var f := ScanSound(c, s, items, now);
    SameAtComposes(db, c, d, db.highwater);
  }

  lemma {:induction false} ScansKeepSnapshot(db: Db, ops: seq<Op>, n: nat) returns (d: Db)
    requires Sound(db) && Timed(db, db.highwater) && Syncs(db, ops) && AllSettled(db, ops) && n <= |ops|
    ensures d == After(db, ops[..n]) && SnapshotHolds(db, d, ops)
  {
    hide Snapshot, SnapshotHolds, Settled, Sound;
    if n == 0 {
      d := db;
      SnapshotStarts(db, ops);
    } else {
      var c := ScansKeepSnapshot(db, ops, n - 1);
      assert ops[..n][..n - 1] == ops[..n - 1];
      var op := ops[n - 1];
      HeldIsSettled(db, c, ops, n - 1);
      d := ScanKeepsSnapshot(db, c, ops, op.s, op.items, op.now);
    }
  }

  lemma {:induction false} SnapshotStarts(db: Db, ops: seq<Op>)
    requires Sound(db) && Timed(db, db.highwater) && AllSettled(db, ops)
    ensures SnapshotHolds(db, db, ops)
  {
    hide Sound, Settled, Timed;
  }

  lemma {:induction false} HeldIsSettled(db: Db, c: Db, ops: seq<Op>, n: nat)
    requires SnapshotHolds(db, c, ops) && n < |ops| && ops[n].ScanSnapshot?
    ensures Settled(c.rows, ops[n].s)
  {
    hide Sound, Settled, Timed, SameAt;
  }

  lemma {:induction false} SameCards(db: Db, d: Db, q: Query, snapshot: nat)
    requires SameAt(db, d, snapshot)
    ensures Cards(db, q, snapshot) == Cards(d, q, snapshot)
  {
    forall k ensures Shown(db, q, k, snapshot) <==> Shown(d, q, k, snapshot) {
      assert Seen(db, k, snapshot) <==> Seen(d, k, snapshot);
    }
  }

  /** Refreshing the cursor of a card of the snapshot finds the same key. */
  lemma {:induction false} RefreshIsStable(db: Db, d: Db, q: Query, snapshot: nat, key: Key)
    requires SameAt(db, d, snapshot) && Sound(d) && key in Cards(db, q, snapshot)
    ensures Refresh(d, Cursor(key, snapshot)) == Cursor(key, snapshot)
  {
    var k :| k in db.rows && Shown(db, q, k, snapshot) && KeyOf(db, k, snapshot) == key;
    assert Seen(db, k, snapshot) && Seen(d, k, snapshot);
    assert KeyOf(d, k, snapshot) == key;
    var cursor := Cursor(key, snapshot);
    assert IsCursorRow(d, cursor, k);
    forall l | IsCursorRow(d, cursor, l) ensures l == k {
      assert d.videos[l.bvid].id == d.videos[k.bvid].id;
    }
  }

  /** The pages a reader gets, page `i` after the first `at[i]` scans; each cursor is the last card of
      the page before. */
  ghost predicate Reads(db: Db, ops: seq<Op>, q: Query, size: nat, at: seq<nat>, pages: seq<Page>) {
    && |at| == |pages| && (forall i :: 0 <= i < |at| ==> at[i] <= |ops|) && (|at| > 0 ==> at[0] == 0)
    && (forall i {:trigger CursorAt(pages, i)} :: 0 <= i < |pages| ==>
          pages[i] == ReadPage(After(db, ops[..at[i]]), q, Stamp(CursorAt(pages, i), db.highwater), size))
    && (forall i :: 0 <= i < |pages| - 1 ==> pages[i].hasNext)
  }

  function Stamp(key: Option<Key>, snapshot: nat): Option<Cursor> {
    if key.Some? then Some(Cursor(key.value, snapshot)) else None
  }

  lemma {:induction false} BelowIsListed(list: seq<Key>, cursor: Key)
    ensures forall k :: k in Below(list, cursor) ==> k in list
  {
    if list != [] {
      BelowIsListed(list[1..], cursor);
      assert list == [list[0]] + list[1..];
    }
  }

  lemma {:induction false} PageIsListed(list: seq<Key>, cursor: Option<Key>, size: nat)
    ensures forall k :: k in PageAfter(list, cursor, size).items ==> k in list
  {
    if cursor.Some? {
      BelowIsListed(list, cursor.value);
    }
  }

  /** A page read in a later state is the page of the snapshot's own listing. */
  lemma {:induction false} ReadLater(db: Db, d: Db, q: Query, size: nat, after: Option<Key>, list: seq<Key>)
    requires Sound(d) && SameAt(db, d, db.highwater) && (after.None? ==> d == db) && list == Listing(Cards(db, q, db.highwater))
    requires after.Some? ==> after.value in Elements(list)
    ensures ReadPage(d, q, Stamp(after, db.highwater), size) == PageAfter(list, after, size)
  {
    SameCards(db, d, q, db.highwater);
    if after.Some? {
      RefreshIsStable(db, d, q, db.highwater, after.value);
    }
  }

  /** The state a page is read in. */
  lemma {:induction false} StateOfPage(db: Db, ops: seq<Op>, n: nat) returns (d: Db)
    requires Sound(db) && Timed(db, db.highwater) && Syncs(db, ops) && AllSettled(db, ops) && n <= |ops|
    ensures d == After(db, ops[..n]) && Sound(d) && SameAt(db, d, db.highwater) && (n == 0 ==> d == db)
  {
    d := ScansKeepSnapshot(db, ops, n);
    assert n == 0 ==> ops[..n] == [];
  }

  lemma {:induction false} PageOfSnapshot(db: Db, ops: seq<Op>, n: nat, q: Query, size: nat, cursor: Option<Key>, list: seq<Key>)
    requires Sound(db) && Timed(db, db.highwater) && Syncs(db, ops) && AllSettled(db, ops) && n <= |ops|
    requires list == Listing(Cards(db, q, db.highwater)) && (if cursor.Some? then cursor.value in Elements(list) else n == 0)
    ensures ReadPage(After(db, ops[..n]), q, Stamp(cursor, db.highwater), size) == PageAfter(list, cursor, size)
  {
    var d := StateOfPage(db, ops, n);
    ReadLater(db, d, q, size, cursor, list);
  }

  lemma {:induction false} CursorIsCard(list: seq<Key>, size: nat, pages: seq<Page>, i: nat)
    requires 0 < i < |pages| && size > 0 && pages[i - 1].hasNext
    requires pages[i - 1] == PageAfter(list, CursorAt(pages, i - 1), size)
    ensures CursorAt(pages, i).Some? && CursorAt(pages, i).value in list
  {
    PageIsListed(list, CursorAt(pages, i - 1), size);
  }

  /** Every read up to the state `top` gives the page of one listing. */
  ghost predicate ReadsListing(list: seq<Key>, size: nat, read: (nat, Option<Key>) -> Page, top: nat) {
    forall n: nat, c: Option<Key> {:trigger read(n, c)} :: n <= top && (if c.Some? then c.value in list else n == 0) ==>
      read(n, c) == PageAfter(list, c, size)
  }

  /** The pages come from such reads, each cursor being the last card of the page before. */
  ghost predicate Fetched(read: (nat, Option<Key>) -> Page, at: seq<nat>, top: nat, pages: seq<Page>) {
    && |at| == |pages| && (|at| > 0 ==> at[0] == 0)
    && (forall j {:trigger CursorAt(pages, j)} :: 0 <= j < |pages| ==> at[j] <= top && pages[j] == read(at[j], CursorAt(pages, j)))
    && (forall j :: 0 <= j < |pages| - 1 ==> pages[j].hasNext)
  }

  lemma {:induction false} ReadsAreWalk(list: seq<Key>, size: nat, read: (nat, Option<Key>) -> Page, at: seq<nat>, top: nat, pages: seq<Page>, i: nat)
    requires size > 0 && i < |pages| && ReadsListing(list, size, read, top) && Fetched(read, at, top, pages)
    ensures pages[i] == PageAfter(list, CursorAt(pages, i), size)
  {
    if i > 0 {
      ReadsAreWalk(list, size, read, at, top, pages, i - 1);
      CursorIsCard(list, size, pages, i);
    }
    assert pages[i] == read(at[i], CursorAt(pages, i));
  }

  lemma {:induction false} SettledReader(db: Db, ops: seq<Op>, q: Query, size: nat, at: seq<nat>, pages: seq<Page>)
    requires Sound(db) && Timed(db, db.highwater) && Syncs(db, ops) && AllSettled(db, ops) && size > 0
    requires Reads(db, ops, q, size, at, pages) && pages != []
    ensures !pages[|pages| - 1].hasNext ==> Items(pages) == Listing(Cards(db, q, db.highwater))
    ensures |pages| <= |Listing(Cards(db, q, db.highwater))| + 1
  {
    var list := Listing(Cards(db, q, db.highwater));
    var read := (n: nat, c: Option<Key>) => if n <= |ops| then ReadPage(After(db, ops[..n]), q, Stamp(c, db.highwater), size) else Page([], false, false);
    forall n: nat, c: Option<Key> {:trigger read(n, c)} | n <= |ops| && (if c.Some? then c.value in list else n == 0)
      ensures read(n, c) == PageAfter(list, c, size)
    {
      assert forall k :: k in list ==> k in Elements(list);
      PageOfSnapshot(db, ops, n, q, size, c, list);
    }
    ReadsThrough(db, ops, q, size, at, pages, read);
    forall i {:trigger CursorAt(pages, i)} | 0 <= i < |pages| ensures pages[i] == PageAfter(list, CursorAt(pages, i), size) {
      ReadsAreWalk(list, size, read, at, |ops|, pages, i);
    }
    WalkReadsAll(list, size, pages);
  }

  /** No two active rows of a source that is scanned share a stored position. */
  ghost predicate AllUntied(db: Db, ops: seq<Op>) {
    forall n :: 0 <= n < |ops| && ops[n].ScanSnapshot? ==> Untied(db.rows, ops[n].s)
  }

  /** After any run whose scans list each video once, and with no shared positions in the sources
      that are scanned: a reader who follows cursors, while complete scans that only insert run
      between its pages, is through after at most one page more than there are cards in its
      snapshot; once no page follows it has seen exactly those cards, each once and in order. */
  lemma {:induction false} ReaderSeesSnapshot(pre: seq<Op>, ops: seq<Op>, q: Query, size: nat, at: seq<nat>, pages: seq<Page>)
    requires DistinctScans(pre) && size > 0
    requires var db := After(EMPTY, pre); Timed(db, db.highwater) && Syncs(db, ops) && AllUntied(db, ops)
    requires Reads(After(EMPTY, pre), ops, q, size, at, pages) && pages != []
    ensures var list := Listing(Cards(After(EMPTY, pre), q, After(EMPTY, pre).highwater));
      && (!pages[|pages| - 1].hasNext ==> Items(pages) == list)
      && |pages| <= |list| + 1
  {
    var db := After(EMPTY, pre);
    RunsKeepSound(pre);
    forall n | 0 <= n < |ops| && ops[n].ScanSnapshot? ensures Settled(db.rows, ops[n].s) {
      RunsStayInRange(pre, ops[n].s);
    }
    hide After, Syncs, Reads, Untied, InRange, Sound;
    SettledReader(db, ops, q, size, at, pages);
  }

  /** While a page says that another follows, the reader can go on, whatever scans have run by then:
      its cursor is a card of the snapshot, and the page read there continues the reading. */
  lemma {:induction false} ReaderGoesOn(db: Db, ops: seq<Op>, q: Query, size: nat, at: seq<nat>, pages: seq<Page>, n: nat)
    requires Reads(db, ops, q, size, at, pages) && pages != [] && pages[|pages| - 1].hasNext && n <= |ops| && size > 0
    ensures var next := ReadPage(After(db, ops[..n]), q, Stamp(CursorAt(pages, |pages|), db.highwater), size);
      CursorAt(pages, |pages|).Some? && Reads(db, ops, q, size, at + [n], pages + [next])
  {
    hide ReadPage, After;
    var next := ReadPage(After(db, ops[..n]), q, Stamp(CursorAt(pages, |pages|), db.highwater), size);
    var last := |pages| - 1;
    assert pages[last] == ReadPage(After(db, ops[..at[last]]), q, Stamp(CursorAt(pages, last), db.highwater), size);
    NextHasCursor(After(db, ops[..at[last]]), q, Stamp(CursorAt(pages, last), db.highwater), size);
    var more, when := pages + [next], at + [n];
    forall i {:trigger CursorAt(more, i)} | 0 <= i < |more|
      ensures more[i] == ReadPage(After(db, ops[..when[i]]), q, Stamp(CursorAt(more, i), db.highwater), size)
    {
      SameCursor(pages, next, i);
      assert i < |pages| ==> pages[i] == ReadPage(After(db, ops[..at[i]]), q, Stamp(CursorAt(pages, i), db.highwater), size);
    }
  }

  lemma {:induction false} NextHasCursor(d: Db, q: Query, after: Option<Cursor>, size: nat)
    requires size > 0
    ensures var page := ReadPage(d, q, after, size); page.hasNext ==> page.items != []
  {
  }

  lemma {:induction false} ReadsThrough(db: Db, ops: seq<Op>, q: Query, size: nat, at: seq<nat>, pages: seq<Page>, read: (nat, Option<Key>) -> Page)
    requires Reads(db, ops, q, size, at, pages)
    requires forall n: nat, c :: n <= |ops| ==> read(n, c) == ReadPage(After(db, ops[..n]), q, Stamp(c, db.highwater), size)
    ensures Fetched(read, at, |ops|, pages)
  {
  }
}
