/** What every run of collection transactions keeps. */
module MembershipSafety {
  import opened Wrappers
  import opened Collection

  /** A linked row has its video. */
  ghost predicate Anchored(db: Db) {
    forall k :: k in db.rows && db.rows[k].linked ==> k.bvid in db.videos
  }

  /** A removed video has no active membership, leaving `but` out of account. */
  ghost predicate LiveBut(db: Db, but: Option<Bvid>) {
    forall k :: k in db.rows && db.rows[k].linked && !db.rows[k].removed && k.bvid in db.videos && Some(k.bvid) != but ==>
      !db.videos[k.bvid].removed
  }

  ghost predicate Rooted(db: Db) {
    forall k :: k in db.rows ==> k.source in db.sources
  }

  /** Membership numbers are unique and below the high-water mark. */
  ghost predicate Numbered(db: Db) {
    && (forall k :: k in db.rows ==> db.rows[k].number <= db.highwater)
    && (forall k, l :: k in db.rows && l in db.rows && k != l ==> db.rows[k].number != db.rows[l].number)
  }

  /** Video ids are unique. */
  ghost predicate Named(db: Db) {
    && (forall b :: b in db.videos ==> db.videos[b].id < db.nextId)
    && (forall b, c :: b in db.videos && c in db.videos && b != c ==> db.videos[b].id != db.videos[c].id)
  }

  ghost predicate SoundBut(db: Db, but: Option<Bvid>) {
    Anchored(db) && LiveBut(db, but) && Rooted(db) && Numbered(db) && Named(db)
  }

  ghost predicate Sound(db: Db) {
    SoundBut(db, None)
  }

  // ---- single writes ---------------------------------------------------------------------------

  lemma {:induction false} CreateKeeps(db: Db, b: Bvid, display: int, now: int)
    requires Sound(db)
    ensures var d := CreateVideo(db, b, display, now);
      && Sound(d) && b in d.videos && !d.videos[b].removed && d.rows == db.rows && d.sources == db.sources
      && d.highwater == db.highwater && forall c :: c in db.videos ==> c in d.videos
  {
  }

  /** What `_membership` leaves of the rows. */
  lemma {:induction false} MembershipRows(db: Db, s: nat, item: Item, position: int, linked: bool, baseline: bool, queued: bool, now: int) returns (d: Db)
    ensures d == Membership(db, s, item, position, linked, baseline, queued, now)
    ensures var k := Place(s, item.bvid);
      && k in d.rows && d.videos == db.videos && d.sources == db.sources && d.nextId == db.nextId
      && d.rows[k].linked == (linked || (k in db.rows && db.rows[k].linked)) && !d.rows[k].removed
      && (forall l :: l != k ==> (l in d.rows <==> l in db.rows) && (l in d.rows ==> d.rows[l] == db.rows[l]))
      && (if k in db.rows then d.highwater == db.highwater && d.rows[k].number == db.rows[k].number
          else d.highwater == db.highwater + 1 && d.rows[k].number == d.highwater)
  {
    d := Membership(db, s, item, position, linked, baseline, queued, now);
  }

  lemma {:induction false} MembershipKeeps(db: Db, s: nat, item: Item, position: int, linked: bool, baseline: bool, queued: bool, now: int)
    requires Sound(db) && s in db.sources && (linked ==> item.bvid in db.videos)
    ensures var d := Membership(db, s, item, position, linked, baseline, queued, now);
      var k := Place(s, item.bvid);
      && SoundBut(d, Some(item.bvid)) && k in d.rows && d.videos == db.videos && d.sources == db.sources
      && (!d.rows[k].linked ==> Sound(d))
  {
    var d := MembershipRows(db, s, item, position, linked, baseline, queued, now);
  }

  lemma {:induction false} ObserveKeeps(db: Db, item: Item, reenter: bool, now: int)
    requires SoundBut(db, Some(item.bvid)) && item.bvid in db.videos
    ensures var d := Observe(db, item, reenter, now);
      Sound(d) && d.rows == db.rows && d.sources == db.sources && d.videos.Keys == db.videos.Keys
  {
  }

  // ---- the scans -------------------------------------------------------------------------------

  lemma {:induction false} BaselineAllKeeps(db: Db, s: nat, items: seq<Item>, chosen: set<Bvid>, now: int)
    requires Sound(db) && s in db.sources
    ensures var d := BaselineAll(db, s, items, chosen, now); Sound(d) && d.sources == db.sources
  {
    if items != [] {
      var n := |items| - 1;
      BaselineAllKeeps(db, s, items[..n], chosen, now);
      var c, item := BaselineAll(db, s, items[..n], chosen, now), items[n];
      BaselineStepKeeps(c, s, item, n, chosen, now);
    }
  }

  lemma {:induction false} BaselineStepKeeps(c: Db, s: nat, item: Item, n: nat, chosen: set<Bvid>, now: int)
    requires Sound(c) && s in c.sources
    ensures var d := BaselineStep(c, s, item, n, chosen, now); Sound(d) && d.sources == c.sources
  {
    var known := item.bvid in c.videos;
    MembershipKeeps(c, s, item, n, known, item.bvid !in chosen, item.bvid in chosen, now);
    if known {
      ObserveKeeps(Membership(c, s, item, n, known, item.bvid !in chosen, item.bvid in chosen, now), item,
                   c.videos[item.bvid].archived || !HasActive(c, item.bvid), now);
    }
  }

  /** How the rows read before the loop relate to the rows during it. */
  ghost predicate KnownOk(db: Db, known: map<Place, Row>) {
    forall k :: k in known ==>
      && k in db.rows
      && (known[k].linked ==> k.bvid in db.videos)
      && (!known[k].linked && !known[k].removed ==> !db.rows[k].linked)
  }

  lemma {:induction false} FetchedKeeps(c: Db, known: map<Place, Row>, s: nat, item: Item, now: int)
    requires Sound(c) && KnownOk(c, known)
    ensures var d := Fetched(c, known, s, item, now);
      && Sound(d) && d.sources == c.sources && KnownOk(d, known)
      && (Links(known, Place(s, item.bvid)) ==> item.bvid in d.videos)
  {
    CreateKeeps(c, item.bvid, OrNow(item.favorite, now), now);
  }

  lemma {:induction false} UpsertKeepsKnown(d: Db, known: map<Place, Row>, s: nat, item: Item, n: nat, now: int)
    requires Sound(d) && KnownOk(d, known)
    ensures KnownOk(Membership(d, s, item, n, Links(known, Place(s, item.bvid)), false, false, now), known)
    ensures var e := Membership(d, s, item, n, Links(known, Place(s, item.bvid)), false, false, now);
      !Links(known, Place(s, item.bvid)) ==> Place(s, item.bvid) in e.rows && !e.rows[Place(s, item.bvid)].linked
  {
    var k := Place(s, item.bvid);
    var e := Membership(d, s, item, n, Links(known, k), false, false, now);
    forall l | l in known ensures l in e.rows && (!known[l].linked && !known[l].removed ==> !e.rows[l].linked) {
      assert l != k && l in d.rows ==> e.rows[l] == d.rows[l];
    }
  }

  lemma {:induction false} SnapshotStepKeeps(c: Db, known: map<Place, Row>, s: nat, item: Item, n: nat, now: int)
    requires Sound(c) && s in c.sources && KnownOk(c, known)
    ensures var d := SnapshotStep(c, known, s, item, n, now);
      Sound(d) && d.sources == c.sources && KnownOk(d, known)
  {
    var k := Place(s, item.bvid);
    FetchedKeeps(c, known, s, item, now);
    var d := Fetched(c, known, s, item, now);
    UpsertKeepsKnown(d, known, s, item, n, now);
    var e := Membership(d, s, item, n, Links(known, k), false, false, now);
    assert SoundBut(e, Some(item.bvid)) && e.sources == d.sources && e.videos == d.videos && (!Links(known, k) ==> Sound(e)) by {
      MembershipKeeps(d, s, item, n, Links(known, k), false, false, now);
    }
    ObserveKeepsIf(e, known, item, Links(known, k), Reenters(d, known, k), now);
  }

  lemma {:induction false} ObserveKeepsIf(e: Db, known: map<Place, Row>, item: Item, linked: bool, reenter: bool, now: int)
    requires SoundBut(e, Some(item.bvid)) && KnownOk(e, known) && (if linked then item.bvid in e.videos else Sound(e))
    ensures var f := if linked then Observe(e, item, reenter, now) else e;
      Sound(f) && f.sources == e.sources && KnownOk(f, known)
  {
    if linked {
      ObserveKeeps(e, item, reenter, now);
    }
  }

  lemma {:induction false} SnapshotAllKeeps(db: Db, known: map<Place, Row>, s: nat, items: seq<Item>, now: int)
    requires Sound(db) && s in db.sources && KnownOk(db, known)
    ensures var d := SnapshotAll(db, known, s, items, now); Sound(d) && d.sources == db.sources && KnownOk(d, known)
  {
    if items != [] {
      var n := |items| - 1;
      SnapshotAllKeeps(db, known, s, items[..n], now);
      SnapshotStepKeeps(SnapshotAll(db, known, s, items[..n], now), known, s, items[n], n, now);
    }
  }

  lemma {:induction false} SweepKeeps(db: Db, s: nat, ids: set<Bvid>)
    requires Sound(db)
    ensures Sound(Sweep(db, s, ids))
  {
    var d := Sweep(db, s, ids);
    forall k | k in d.rows && d.rows[k].linked && !d.rows[k].removed ensures !d.videos[k.bvid].removed {
      assert Held(d.rows, k.bvid);
    }
  }

  lemma {:induction false} SnapshotKeeps(db: Db, s: nat, items: seq<Item>, authoritative: bool, now: int)
    requires Sound(db) && s in db.sources
    ensures Sound(Snapshot(db, s, items, authoritative, now))
  {
    SnapshotAllKeeps(db, db.rows, s, items, now);
    SweepKeeps(SnapshotAll(db, db.rows, s, items, now), s, Ids(items));
  }

  lemma {:induction false} CoverageKeeps(db: Db, s: nat, policy: Policy, limit: Option<nat>, now: int)
    requires Sound(db) && CoverageError(db, s, policy, limit).None?
    ensures Sound(Coverage(db, s, policy, limit, now))
  {
  }

  lemma {:induction false} LinkKeeps(d: Db, k: Place)
    requires Sound(d) && k in d.rows && k.bvid in d.videos && !d.videos[k.bvid].removed
    ensures Sound(d.(rows := d.rows[k := d.rows[k].(linked := true, queued := false, baseline := false)]))
  {
    var e := d.(rows := d.rows[k := d.rows[k].(linked := true, queued := false, baseline := false)]);
    assert forall l :: l in e.rows ==> l in d.rows && e.rows[l].number == d.rows[l].number;
  }

  lemma {:induction false} MaterializeKeeps(db: Db, s: nat, b: Bvid, now: int)
    requires Sound(db) && MaterializeError(db, s, b).None?
    ensures Sound(Materialize(db, s, b, now))
  {
    var r := db.rows[Place(s, b)];
    if !r.linked {
      CreateKeeps(db, b, OrNow(r.favorite, r.observed), now);
      LinkKeeps(CreateVideo(db, b, OrNow(r.favorite, r.observed), now), Place(s, b));
    }
  }

  lemma {:induction false} BaselineKeeps(db: Db, s: nat, items: seq<Item>, authoritative: bool, now: int)
    requires Sound(db) && s in db.sources
    ensures Sound(Baseline(db, s, items, authoritative, now))
  {
    hide LatestItems;
    BaselineAllKeeps(db, s, items, Bvids(if authoritative then LatestItems(items, HistorySize(db.sources[s], |items|)) else []), now);
  }

  /** Adding and dropping sources, and the flags an operator sets. */
  lemma {:induction false} AdminKeeps(db: Db, op: Op)
    requires Sound(db) && (op.AddSource? || op.SetStatus? || op.SetFlags? || op.DropSource?)
    ensures Sound(Apply(db, op))
  {
  }

  lemma {:induction false} ApplyKeeps(db: Db, op: Op)
    requires Sound(db)
    ensures Sound(Apply(db, op))
  {
    hide Sound, Baseline, Snapshot, Collection.Coverage, Materialize, CreateVideo, RemoveSource;
    match op
    case AddVideo(b, display, now) => CreateKeeps(db, b, display, now);
    case ScanBaseline(s, items, authoritative, now) =>
      if s in db.sources {
        BaselineKeeps(db, s, items, authoritative, now);
      }
    case ScanSnapshot(s, items, authoritative, now) =>
      if s in db.sources {
        SnapshotKeeps(db, s, items, authoritative, now);
      }
    case SetCoverage(s, policy, limit, now) =>
      if CoverageError(db, s, policy, limit).None? {
        CoverageKeeps(db, s, policy, limit, now);
      }
    case MaterializeRow(s, b, now) =>
      if MaterializeError(db, s, b).None? {
        MaterializeKeeps(db, s, b, now);
      }
    case _ => AdminKeeps(db, op);
  }

  lemma {:induction false} RunsKeepSound(ops: seq<Op>)
    ensures Sound(After(EMPTY, ops))
  {
    if ops != [] {
      RunsKeepSound(ops[..|ops| - 1]);
      ApplyKeeps(After(EMPTY, ops[..|ops| - 1]), ops[|ops| - 1]);
    }
  }

  /** Over every sequence of transactions, a removed video never has an active membership. */
  lemma {:induction false} RemovedVideosAreNotHeld(ops: seq<Op>, b: Bvid)
    ensures var db := After(EMPTY, ops); b in db.videos && db.videos[b].removed ==> !Held(db.rows, b)
  {
    RunsKeepSound(ops);
  }

  // ---- what a scan does ------------------------------------------------------------------------

  /** Nothing that was not removed became removed. */
  ghost predicate RemovesNothing(db: Db, d: Db) {
    && (forall k :: k in db.rows ==> k in d.rows && (!db.rows[k].removed ==> !d.rows[k].removed))
    && (forall b :: b in db.videos ==> b in d.videos && (!db.videos[b].removed ==> !d.videos[b].removed))
  }

  lemma {:induction false} SnapshotAllRemovesNothing(db: Db, known: map<Place, Row>, s: nat, items: seq<Item>, now: int)
    ensures RemovesNothing(db, SnapshotAll(db, known, s, items, now))
  {
    if items != [] {
      var n := |items| - 1;
      SnapshotAllRemovesNothing(db, known, s, items[..n], now);
      var c := SnapshotAll(db, known, s, items[..n], now);
      SnapshotStepRemovesNothing(c, known, s, items[n], n, now);
    }
  }

  lemma {:induction false} SnapshotStepRemovesNothing(c: Db, known: map<Place, Row>, s: nat, item: Item, n: nat, now: int)
    ensures RemovesNothing(c, SnapshotStep(c, known, s, item, n, now))
    ensures var e, k := SnapshotStep(c, known, s, item, n, now), Place(s, item.bvid); k in e.rows && !e.rows[k].removed
  {
    var k := Place(s, item.bvid);
    var d := Fetched(c, known, s, item, now);
    var e := Membership(d, s, item, n, Links(known, k), false, false, now);
    assert RemovesNothing(c, d);
    assert RemovesNothing(d, e) && k in e.rows && !e.rows[k].removed;
    assert RemovesNothing(e, Observe(e, item, Reenters(d, known, k), now));
  }

  lemma {:induction false} BaselineAllRemovesNothing(db: Db, s: nat, items: seq<Item>, chosen: set<Bvid>, now: int)
    ensures RemovesNothing(db, BaselineAll(db, s, items, chosen, now))
  {
    if items != [] {
      var n := |items| - 1;
      BaselineAllRemovesNothing(db, s, items[..n], chosen, now);
      var c := BaselineAll(db, s, items[..n], chosen, now);
      assert RemovesNothing(c, BaselineStep(c, s, items[n], n, chosen, now));
    }
  }

  /** Only an authoritative forward scan removes anything (and removing a source deletes its rows). */
  lemma {:induction false} OnlyCompleteScansRemove(db: Db, op: Op)
    requires !op.DropSource? && !(op.ScanSnapshot? && op.authoritative)
    ensures RemovesNothing(db, Apply(db, op))
  {
    match op
    case ScanSnapshot(s, items, authoritative, now) =>
      if s in db.sources {
        SnapshotAllRemovesNothing(db, db.rows, s, items, now);
      }
    case ScanBaseline(s, items, authoritative, now) =>
      if s in db.sources {
        BaselineAllRemovesNothing(db, s, items, Bvids(if authoritative then LatestItems(items, HistorySize(db.sources[s], |items|)) else []), now);
      }
    case _ =>
  }

  predicate IsActive(d: Db, s: nat, b: Bvid) {
    Place(s, b) in d.rows && !d.rows[Place(s, b)].removed
  }

  lemma {:induction false} StaysActive(c: Db, known: map<Place, Row>, s: nat, item: Item, n: nat, now: int, b: Bvid) returns (d: Db)
    requires b == item.bvid || IsActive(c, s, b)
    ensures d == SnapshotStep(c, known, s, item, n, now) && IsActive(d, s, b)
  {
    d := SnapshotStep(c, known, s, item, n, now);
    SnapshotStepRemovesNothing(c, known, s, item, n, now);
  }

  lemma {:induction false} ScannedIsActive(db: Db, known: map<Place, Row>, s: nat, items: seq<Item>, now: int, i: nat) returns (d: Db)
    requires i < |items|
    ensures d == SnapshotAll(db, known, s, items, now) && IsActive(d, s, items[i].bvid)
    decreases |items|
  {
    var n := |items| - 1;
    var c := SnapshotAll(db, known, s, items[..n], now);
    if i < n {
      c := ScannedIsActive(db, known, s, items[..n], now, i);
      assert items[..n][i] == items[i];
    }
    d := StaysActive(c, known, s, items[n], n, now, items[i].bvid);
  }

  /** After a complete scan the source's active memberships are exactly the scanned ids, and each
      video linked to that source is removed if and only if no source still holds it. */
  lemma {:induction false} CompleteScanIsExact(db: Db, s: nat, items: seq<Item>, now: int)
    requires s in db.sources
    ensures var d := Snapshot(db, s, items, true, now);
      && ActiveOf(d.rows, s) == Ids(items)
      && (forall b :: b in d.videos && Place(s, b) in d.rows && d.rows[Place(s, b)].linked ==>
            (d.videos[b].removed <==> !Held(d.rows, b)))
  {
    var d := Snapshot(db, s, items, true, now);
    forall b ensures b in ActiveOf(d.rows, s) <==> b in Ids(items) {
      if b in Ids(items) {
        var i :| 0 <= i < |items| && items[i].bvid == b;
        var e := ScannedIsActive(db, db.rows, s, items, now, i);
        assert Place(s, b) in d.rows && !d.rows[Place(s, b)].removed;
      }
    }
  }
}
