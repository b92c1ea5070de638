/** The collection as the program has it: rows updated in place inside loops, each transaction
    proved equal to its specification. */
module CollectionRun {
  import opened Wrappers
  import opened Orders
  import opened Collection
  import opened Coverage

  /** `min` of a non-empty list. */
  method MinOf(times: seq<int>) returns (m: int)
    requires times != []
    ensures m in times && forall t :: t in times ==> m <= t
  {
    m := times[0];
    for i := 1 to |times|
      invariant m in times && forall t :: t in times[..i] ==> m <= t
    {
      assert times[..i + 1] == times[..i] + [times[i]];
      if times[i] < m {
        m := times[i];
      }
    }
    assert times[..|times|] == times;
  }

  /** The cutoff of a selection: the least favourite time, else the clock for future_only. */
  method CutoffOf(times: seq<int>, policy: Policy, now: int) returns (cutoff: Option<int>)
    ensures cutoff == Cutoff(Elements(times), policy, now)
  {
    if times != [] {
      var m := MinOf(times);
      assert m in Elements(times);
      LeastIs(Elements(times), m);
      cutoff := Some(m);
    } else if policy == FutureOnly {
      cutoff := Some(now);
    } else {
      cutoff := None;
    }
  }

  lemma {:induction false} LeastIs(times: set<int>, m: int)
    requires m in times && forall t :: t in times ==> m <= t
    ensures times != {} && Least(times) == m
  {
  }

  class Library {
    var rows: map<Place, Row>
    var videos: map<Bvid, Video>
    var sources: map<nat, Source>
    var highwater: nat
    var nextId: nat

    ghost function State(): Db
      reads this
    {
      Db(rows, videos, sources, highwater, nextId)
    }

    constructor ()
      ensures State() == EMPTY
    {
      rows, videos, sources, highwater, nextId := map[], map[], map[], 0, 0;
    }

    /** `create_video`; `created` tells whether the row is new. */
    method AddVideoRow(b: Bvid, display: int, now: int) returns (created: bool)
      modifies `videos, `nextId
      ensures State() == CreateVideo(old(State()), b, display, now) && created == (b !in old(videos))
    {
      created := b !in videos;
      if created {
        videos := videos[b := Video(nextId, false, false, false, false, Some(display), now)];
        nextId := nextId + 1;
      } else {
        videos := videos[b := videos[b].(removed := false, display := Some(display))];
      }
    }

    /** `_membership`. */
    method Upsert(s: nat, item: Item, position: int, linked: bool, baseline: bool, queued: bool, now: int)
      modifies `rows, `highwater
      ensures State() == Membership(old(State()), s, item, position, linked, baseline, queued, now)
    {
      var k := Place(s, item.bvid);
      if k !in rows {
        highwater := highwater + 1;
        rows := rows[k := Row(highwater, linked, item.favorite, position, baseline, queued, false, now)];
      } else {
        var row := rows[k];
        row := row.(linked := row.linked || linked, position := position, removed := false);
        if item.favorite.Some? {
          row := row.(favorite := item.favorite);
        }
        rows := rows[k := row];
      }
    }

    /** `_observe_video`. */
    method ObserveVideo(item: Item, reenter: bool, now: int)
      modifies `videos
      ensures State() == Observe(old(State()), item, reenter, now)
    {
      if item.bvid !in videos {
        return;
      }
      var video := videos[item.bvid];
      if reenter {
        video := video.(archived := false, display := Some(OrNow(item.favorite, now)));
      }
      var shown := OrZero(video.display);
      if OrZero(item.favorite) > shown {
        shown := OrZero(item.favorite);
      }
      videos := videos[item.bvid := video.(removed := false, display := Some(shown))];
    }

    method ActiveNow(b: Bvid) returns (active: bool)
      ensures active == HasActive(State(), b)
    {
      active := exists k | k in rows :: k.bvid == b && rows[k].linked && !rows[k].removed &&
                                        k.source in sources && sources[k.source].status == Active;
    }

    /** `initialize_source_memberships`. */
    method InitializeMemberships(s: nat, items: seq<Item>, authoritative: bool, now: int) returns (done: bool)
      modifies this
      ensures done == (s in old(sources))
      ensures State() == Apply(old(State()), ScanBaseline(s, items, authoritative, now))
    {
      if s !in sources {
        return false;
      }
      ghost var before := State();
      var source := sources[s];
      var latest := [];
      if authoritative {
        latest := LatestItems(items, HistorySize(source, |items|));
      }
      var selected := Bvids(latest);
      for position := 0 to |items|
        invariant State() == BaselineAll(before, s, items[..position], selected, now)
      {
        var item := items[position];
        assert items[..position + 1][..position] == items[..position];
        var known := item.bvid in videos;
        var archived := known && videos[item.bvid].archived;
        var active := false;
        if known {
          active := ActiveNow(item.bvid);
        }
        Upsert(s, item, position, known, item.bvid !in selected, item.bvid in selected, now);
        if known {
          ObserveVideo(item, archived || !active, now);
        }
      }
      assert items[..|items|] == items;
      if authoritative {
        var times := TimesOf(latest);
        var cutoff := CutoffOf(times, source.policy, now);
        assert Elements(times) == Times(latest);
        sources := sources[s := source.(complete := true, settled := true, cutoff := cutoff)];
      }
      done := true;
    }

    /** One turn of the scan's loop; `isNew` tells whether it made the video. */
    method ScanItem(known: map<Place, Row>, s: nat, item: Item, position: nat, now: int) returns (isNew: bool)
      modifies this
      ensures State() == SnapshotStep(old(State()), known, s, item, position, now) && sources == old(sources)
      ensures videos.Keys == old(videos.Keys) + (if isNew then {item.bvid} else {}) && (isNew ==> item.bvid !in old(videos))
    {
      var k := Place(s, item.bvid);
      isNew := false;
      if Unseen(known, k) {
        isNew := AddVideoRow(item.bvid, OrNow(item.favorite, now), now);
      }
      var linked := Links(known, k);
      var archived := item.bvid in videos && videos[item.bvid].archived;
      var active := ActiveNow(item.bvid);
      Upsert(s, item, position, linked, false, false, now);
      if linked {
        ObserveVideo(item, (k !in known || known[k].removed) && (archived || !active), now);
      }
    }

    /** `record_source_snapshot`; `created` lists the new videos. */
    method RecordSnapshot(s: nat, items: seq<Item>, authoritative: bool, now: int) returns (created: Option<seq<Bvid>>)
      modifies this
      ensures created.Some? == (s in old(sources))
      ensures State() == Apply(old(State()), ScanSnapshot(s, items, authoritative, now))
      ensures created.Some? ==> Distinct(created.value) && forall b :: b in created.value <==> b in videos && b !in old(videos)
    {
      if s !in sources {
        return None;
      }
      var source := sources[s];
      var made := ScanItems(s, items, now);
      if authoritative {
        rows := Unlisted(rows, s, Ids(items));
        videos := Recomputed(videos, rows, s);
      }
      sources := sources[s := Synced(source, authoritative)];
      created := Some(made);
    }

    /** The scan's loop, over the rows as they were before it. */
    method ScanItems(s: nat, items: seq<Item>, now: int) returns (made: seq<Bvid>)
      modifies this
      ensures State() == SnapshotAll(old(State()), old(rows), s, items, now) && sources == old(sources)
      ensures Distinct(made) && forall b :: b in made <==> b in videos && b !in old(videos)
    {
      ghost var before := State();
      var known := rows;
      made := [];
      for position := 0 to |items|
        invariant State() == SnapshotAll(before, known, s, items[..position], now)
        invariant before.videos.Keys <= videos.Keys && sources == before.sources
        invariant Distinct(made) && forall b :: b in made <==> b in videos && b !in before.videos
      {
        assert items[..position + 1][..position] == items[..position];
        var isNew := ScanItem(known, s, items[position], position, now);
        if isNew {
          made := made + [items[position].bvid];
        }
      }
      assert items[..|items|] == items;
    }

    /** The SELECT of the coverage update: the active rows of a source, in history order. */
    method ActiveRows(s: nat) returns (list: seq<Bvid>)
      ensures Sorted(Order(rows, s), list) && Distinct(list) && Elements(list) == ActiveOf(rows, s)
    {
      var left := ActiveOf(rows, s);
      var found: seq<Bvid> := [];
      while left != {}
        invariant Distinct(found) && left <= ActiveOf(rows, s)
        invariant forall b :: b in found <==> b in ActiveOf(rows, s) && b !in left
        decreases |left|
      {
        var b :| b in left;
        left := left - {b};
        found := found + [b];
      }
      OrderIsStrict(rows, s);
      SortSorts(Order(rows, s), found, ActiveOf(rows, s));
      list := SortBy(Order(rows, s), found);
      assert forall b :: b in Elements(list) <==> b in ActiveOf(rows, s);
      SortedIsDistinct(Order(rows, s), list);
    }

    /** The update loop over the active rows. */
    method RequeueRows(s: nat, list: seq<Bvid>, chosen: seq<Bvid>)
      requires Distinct(list) && Elements(list) == ActiveOf(rows, s)
      modifies `rows
      ensures rows == Requeued(old(rows), s, Elements(chosen))
    {
      ghost var before := rows;
      for i := 0 to |list|
        invariant rows.Keys == before.Keys
        invariant forall k :: k in rows ==> rows[k] == RequeuedIn(before, k, s, list[..i], chosen)
      {
        var k := Place(s, list[i]);
        assert list[i] in Elements(list);
        assert list[..i + 1] == list[..i] + [list[i]];
        rows := rows[k := RequeuedRow(rows[k], list[i] in chosen)];
      }
      RequeuedAtOnce(before, rows, s, list, chosen);
    }

    /** `update_source_history_coverage`. */
    method UpdateCoverage(s: nat, policy: Policy, limit: Option<nat>, now: int) returns (error: Option<Error>, queued: nat)
      modifies `rows, `sources
      ensures error == CoverageError(old(State()), s, policy, limit)
      ensures State() == Apply(old(State()), SetCoverage(s, policy, limit, now))
      ensures error.None? ==> queued == |QueuedOf(rows, s)|
    {
      if policy == LatestN && (limit.None? || limit.value < 1) {
        return Some(BadValue), 0;
      }
      if s !in sources {
        return Some(UnknownKey), 0;
      }
      var source := sources[s];
      if !source.complete {
        return Some(BadValue), 0;
      }
      error := None;
      if source.policy == policy && source.limit == Kept(policy, limit) && source.settled {
        queued := |QueuedOf(rows, s)|;
        return;
      }
      var list := ActiveRows(s);
      var n := match policy case All => |list| case LatestN => limit.value case FutureOnly => 0;
      var chosen := list[..if n < |list| then n else |list|];
      SelectionIsPrefix(rows, s, list, policy, limit);
      var times := RowTimesOf(rows, s, chosen);
      queued := |WaitingOf(rows, s, chosen)|;
      WaitingIsQueued(rows, s, chosen);
      RequeueRows(s, list, chosen);
      var cutoff := CutoffOf(times, policy, now);
      sources := sources[s := source.(policy := policy, limit := Kept(policy, limit), settled := true, cutoff := cutoff)];
    }

    /** `materialize_history_membership`. */
    method MaterializeMembership(s: nat, b: Bvid, now: int) returns (error: Option<Error>)
      modifies `rows, `videos, `nextId
      ensures error == MaterializeError(old(State()), s, b)
      ensures State() == Apply(old(State()), MaterializeRow(s, b, now))
    {
      var k := Place(s, b);
      if s !in sources || k !in rows || rows[k].removed || sources[s].status != Active {
        return Some(UnknownKey);
      }
      var row := rows[k];
      if row.linked {
        return None;
      }
      if !row.queued {
        return Some(UnknownKey);
      }
      var _ := AddVideoRow(b, OrNow(row.favorite, row.observed), now);
      rows := rows[k := row.(linked := true, queued := false, baseline := false)];
      error := None;
    }

    /** `remove_source`. */
    method Remove(s: nat)
      modifies `rows, `sources
      ensures State() == Apply(old(State()), DropSource(s))
    {
      if s in sources {
        sources := map x | x in sources && x != s :: sources[x];
      }
      rows := map k | k in rows && k.source != s :: rows[k];
    }
  }
}
