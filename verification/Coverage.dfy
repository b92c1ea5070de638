/** History coverage: which old favourites a policy selects, and where they end. */
module Coverage {
  import opened Wrappers
  import opened Orders
  import opened Collection

  // ---- both orders are strict ------------------------------------------------------------------

  lemma {:induction false} EarlierRowIsStrict(a: Row, x: Bvid, b: Row, y: Bvid, c: Row, z: Bvid)
    ensures !EarlierRow(a, x, a, x)
    ensures x != y ==> EarlierRow(a, x, b, y) || EarlierRow(b, y, a, x)
    ensures EarlierRow(a, x, b, y) && EarlierRow(b, y, c, z) ==> EarlierRow(a, x, c, z)
  {
    LexTotal(x, x);
    LexTotal(x, y);
    if Lex(x, y) && Lex(y, z) {
      LexTransitive(x, y, z);
    }
  }

  lemma {:induction false} OrderIsStrict(rows: map<Place, Row>, s: nat)
    ensures StrictOn(Order(rows, s), ActiveOf(rows, s))
  {
    var less, dom := Order(rows, s), ActiveOf(rows, s);
    forall x, y, z | x in dom && y in dom && z in dom
      ensures !less(x, x) && (x != y ==> less(x, y) || less(y, x)) && (less(x, y) && less(y, z) ==> less(x, z))
    {
      EarlierRowIsStrict(rows[Place(s, x)], x, rows[Place(s, y)], y, rows[Place(s, z)], z);
    }
  }

  lemma {:induction false} RankedIsStrict(items: seq<Item>)
    ensures StrictOn(EarlierItem, Elements(Enumerate(items)))
  {
  }

  // ---- the coverage query ----------------------------------------------------------------------

  /** The prefix of the ordered rows that the program takes is the selection by rank. */
  lemma {:induction false} SelectionIsPrefix(rows: map<Place, Row>, s: nat, list: seq<Bvid>, policy: Policy, limit: Option<nat>)
    requires Sorted(Order(rows, s), list) && Elements(list) == ActiveOf(rows, s)
    requires policy == LatestN ==> limit.Some?
    ensures var n := match policy case All => |list| case LatestN => limit.value case FutureOnly => 0;
      Elements(list[..if n < |list| then n else |list|]) == Selected(rows, s, policy, limit)
  {
    OrderIsStrict(rows, s);
    match policy
    case All => assert list[..|list|] == list;
    case LatestN => PrefixIsTopN(Order(rows, s), list, limit.value);
    case FutureOnly =>
  }

  /** `a` is the favourite at least as recent as `b`; one without a time is the oldest. */
  predicate NotOlder(a: Option<int>, b: Option<int>) {
    b.None? || (a.Some? && a.value >= b.value)
  }

  /** The latest N of a source: N active rows, or all there are; no row left out is favourited later than
      one selected, and of two with the same time the one nearer the top of the source is selected. */
  lemma {:induction false} NewestAreSelected(rows: map<Place, Row>, s: nat, n: nat)
    ensures var active, chosen := ActiveOf(rows, s), Selected(rows, s, LatestN, Some(n));
      && chosen <= active && |chosen| == (if n < |active| then n else |active|)
      && forall x, y :: x in chosen && y in active && y !in chosen ==>
           Place(s, x) in rows && Place(s, y) in rows &&
           var a, b := rows[Place(s, x)], rows[Place(s, y)];
           NotOlder(a.favorite, b.favorite) && (a.favorite == b.favorite ==> a.position <= b.position)
  {
    OrderIsStrict(rows, s);
    TopNTakes(Order(rows, s), ActiveOf(rows, s), n);
    var active, chosen := ActiveOf(rows, s), Selected(rows, s, LatestN, Some(n));
    forall x, y | x in chosen && y in active && y !in chosen
      ensures Place(s, x) in rows && Place(s, y) in rows
      ensures var a, b := rows[Place(s, x)], rows[Place(s, y)];
        NotOlder(a.favorite, b.favorite) && (a.favorite == b.favorite ==> a.position <= b.position)
    {
      assert Order(rows, s)(x, y);
    }
  }

  /** The same for the choice the baseline makes among the items it was given, by their place in the list. */
  lemma {:induction false} NewestItemsAreChosen(items: seq<Item>, n: nat)
    ensures var latest := LatestItems(items, n);
      && |latest| == (if n < |items| then n else |items|)
      && (forall r :: r in latest ==> r.index < |items| && r.item == items[r.index])
      && (forall i, j :: 0 <= i < j < |latest| ==> latest[i] != latest[j])
      && forall r, k :: r in latest && 0 <= k < |items| && Ranked(items[k], k) !in latest ==>
           NotOlder(r.item.favorite, items[k].favorite) && (r.item.favorite == items[k].favorite ==> r.index < k)
  {
    OrderedItems(items);
    var ordered, latest := SortBy(EarlierItem, Enumerate(items)), LatestItems(items, n);
    forall r | r in latest ensures r.index < |items| && r.item == items[r.index] {
      assert r in ordered && r in Enumerate(items);
    }
    forall i, j | 0 <= i < j < |latest| ensures latest[i] != latest[j] {
      assert EarlierItem(ordered[i], ordered[j]);
    }
    forall r, k | r in latest && 0 <= k < |items| && Ranked(items[k], k) !in latest
      ensures NotOlder(r.item.favorite, items[k].favorite) && (r.item.favorite == items[k].favorite ==> r.index < k)
    {
      assert Enumerate(items)[k] == Ranked(items[k], k) && Ranked(items[k], k) in ordered;
      PrefixComesFirst(EarlierItem, ordered, n, r, Ranked(items[k], k));
    }
  }

  /** The rows counted as waiting in the history queue of a source. */
  function QueuedOf(rows: map<Place, Row>, s: nat): set<Place> {
    set k | k in rows && k.source == s && !rows[k].removed && rows[k].queued
  }

  function RequeuedRow(r: Row, chosen: bool): Row {
    r.(queued := chosen && !r.linked, baseline := if chosen then false else r.baseline)
  }

  /** A row after the update loop has dealt with the bvids in `done`. */
  function RequeuedIn(before: map<Place, Row>, k: Place, s: nat, done: seq<Bvid>, chosen: seq<Bvid>): Row
    requires k in before
  {
    if k.source == s && k.bvid in done && !before[k].removed then RequeuedRow(before[k], k.bvid in chosen) else before[k]
  }

  lemma {:induction false} RequeuedAtOnce(before: map<Place, Row>, after: map<Place, Row>, s: nat, list: seq<Bvid>, chosen: seq<Bvid>)
    requires Elements(list) == ActiveOf(before, s) && after.Keys == before.Keys
    requires forall k :: k in after ==> after[k] == RequeuedIn(before, k, s, list[..|list|], chosen)
    ensures after == Requeued(before, s, Elements(chosen))
  {
    assert list[..|list|] == list;
    forall k | k in before && k.source == s && !before[k].removed ensures k.bvid in list {
      assert k.bvid in Elements(list);
    }
  }

  function TimesOf(ranked: seq<Ranked>): (t: seq<int>)
    ensures Elements(t) == Times(ranked)
  {
    if ranked == [] then []
    else
      var r := ranked[|ranked| - 1];
      assert ranked == ranked[..|ranked| - 1] + [r];
      assert Times(ranked) == Times(ranked[..|ranked| - 1]) + (if r.item.favorite.Some? then {r.item.favorite.value} else {});
      var t := TimesOf(ranked[..|ranked| - 1]);
      if r.item.favorite.Some? then t + [r.item.favorite.value] else t
  }

  function RowTimesOf(rows: map<Place, Row>, s: nat, chosen: seq<Bvid>): (t: seq<int>)
    ensures Elements(t) == RowTimes(rows, s, Elements(chosen))
  {
    if chosen == [] then []
    else
      var b := chosen[|chosen| - 1];
      var k := Place(s, b);
      assert chosen == chosen[..|chosen| - 1] + [b];
      var t := RowTimesOf(rows, s, chosen[..|chosen| - 1]);
      assert RowTimes(rows, s, Elements(chosen)) == RowTimes(rows, s, Elements(chosen[..|chosen| - 1])) + RowTimes(rows, s, {b});
      if k in rows && rows[k].favorite.Some? then t + [rows[k].favorite.value] else t
  }

  /** The chosen active rows that still wait for a video. */
  function WaitingOf(rows: map<Place, Row>, s: nat, chosen: seq<Bvid>): set<Place> {
    set k | k in rows && k.source == s && !rows[k].removed && k.bvid in chosen && !rows[k].linked
  }

  lemma {:induction false} WaitingIsQueued(rows: map<Place, Row>, s: nat, chosen: seq<Bvid>)
    ensures QueuedOf(Requeued(rows, s, Elements(chosen)), s) == WaitingOf(rows, s, chosen)
  {
    forall k | k in rows ensures k.bvid in chosen <==> k.bvid in Elements(chosen) {
    }
  }

  // ---- what the coverage query promises --------------------------------------------------------

  /** After a change of coverage the queued rows among the source's active memberships are exactly
      the selected ones that have no video. */
  lemma {:induction false} CoverageQueuesExactly(db: Db, s: nat, policy: Policy, limit: Option<nat>, now: int, b: Bvid)
    requires CoverageError(db, s, policy, limit).None? && !SameCoverage(db.sources[s], policy, limit)
    ensures Place(s, b) in QueuedOf(Coverage(db, s, policy, limit, now).rows, s) <==>
            b in Selected(db.rows, s, policy, limit) && !db.rows[Place(s, b)].linked
  {
    SelectedIsActive(db.rows, s, policy, limit);
  }

  lemma {:induction false} SelectedIsActive(rows: map<Place, Row>, s: nat, policy: Policy, limit: Option<nat>)
    ensures Selected(rows, s, policy, limit) <= ActiveOf(rows, s)
    ensures forall b :: b in ActiveOf(rows, s) ==> Place(s, b) in rows && !rows[Place(s, b)].removed
  {
  }

  /** Materialising a waiting row gives it a visible video and lowers the queue by exactly one. */
  lemma {:induction false} MaterializeDrains(db: Db, s: nat, b: Bvid, now: int)
    requires MaterializeError(db, s, b).None? && !db.rows[Place(s, b)].linked
    ensures var d := Materialize(db, s, b, now);
      && |QueuedOf(d.rows, s)| == |QueuedOf(db.rows, s)| - 1
      && d.rows[Place(s, b)].linked && b in d.videos && !d.videos[b].removed
      && (forall k :: k != Place(s, b) ==> (k in d.rows <==> k in db.rows) && (k in db.rows ==> d.rows[k] == db.rows[k]))
  {
    var d := Materialize(db, s, b, now);
    assert QueuedOf(d.rows, s) == QueuedOf(db.rows, s) - {Place(s, b)};
  }

  /** A larger N only adds items, and never raises a cutoff that is defined; `all` is the largest. */
  lemma {:induction false} LargerCoverageOnlyAdds(rows: map<Place, Row>, s: nat, n: nat, m: nat, now: int)
    requires n <= m
    ensures Selected(rows, s, LatestN, Some(n)) <= Selected(rows, s, LatestN, Some(m)) <= Selected(rows, s, All, None)
    ensures var c, d := Cutoff(RowTimes(rows, s, Selected(rows, s, LatestN, Some(n))), LatestN, now),
                        Cutoff(RowTimes(rows, s, Selected(rows, s, LatestN, Some(m))), LatestN, now);
      c.Some? ==> d.Some? && d.value <= c.value
  {
    var a, b := Selected(rows, s, LatestN, Some(n)), Selected(rows, s, LatestN, Some(m));
    assert forall x :: x in a ==> x in b;
    assert RowTimes(rows, s, a) <= RowTimes(rows, s, b);
  }

  // ---- the baseline's choice is the coverage query's selection ---------------------------------

  ghost predicate Fresh(rows: map<Place, Row>, s: nat) {
    forall k :: k in rows ==> k.source != s
  }

  /** The rows a baseline of a fresh source leaves: one per item, in place, with its time. */
  ghost predicate BaselineRows(rows: map<Place, Row>, s: nat, items: seq<Item>) {
    && (forall i :: 0 <= i < |items| ==>
          var k := Place(s, items[i].bvid);
          k in rows && rows[k].position == i && rows[k].favorite == items[i].favorite && !rows[k].removed)
    && (forall k :: k in rows && k.source == s ==> exists i :: 0 <= i < |items| && items[i].bvid == k.bvid)
  }

  lemma {:induction false} BaselineLeaves(db: Db, s: nat, items: seq<Item>, chosen: set<Bvid>, now: int)
    requires Fresh(db.rows, s) && DistinctItems(items)
    ensures BaselineRows(BaselineAll(db, s, items, chosen, now).rows, s, items)
  {
    if items != [] {
      var n := |items| - 1;
      BaselineLeaves(db, s, items[..n], chosen, now);
      var c := BaselineAll(db, s, items[..n], chosen, now);
      BaselineStepLeaves(c, s, items, chosen, now);
    }
  }

  lemma {:induction false} BaselineStepLeaves(c: Db, s: nat, items: seq<Item>, chosen: set<Bvid>, now: int)
    requires items != [] && DistinctItems(items) && BaselineRows(c.rows, s, items[..|items| - 1])
    ensures BaselineRows(BaselineStep(c, s, items[|items| - 1], |items| - 1, chosen, now).rows, s, items)
  {
    var n := |items| - 1;
    var init, item := items[..n], items[n];
    var d := BaselineStep(c, s, item, n, chosen, now);
    assert forall i :: 0 <= i < n ==> init[i] == items[i];
    assert Place(s, item.bvid) !in c.rows;
    forall k | k in d.rows && k.source == s ensures exists i :: 0 <= i < |items| && items[i].bvid == k.bvid {
      if k in c.rows {
        var i :| 0 <= i < |init| && init[i].bvid == k.bvid;
        assert items[i].bvid == k.bvid;
      } else {
        assert items[n].bvid == k.bvid;
      }
    }
  }

  function BvidList(ranked: seq<Ranked>): (r: seq<Bvid>)
    ensures |r| == |ranked| && forall i :: 0 <= i < |r| ==> r[i] == ranked[i].item.bvid
  {
    seq(|ranked|, i requires 0 <= i < |ranked| => ranked[i].item.bvid)
  }

  lemma {:induction false} OrderedItems(items: seq<Item>)
    ensures var ordered := SortBy(EarlierItem, Enumerate(items));
      Sorted(EarlierItem, ordered) && |ordered| == |items| && forall r :: r in ordered <==> r in Enumerate(items)
  {
    RankedIsStrict(items);
    SortSorts(EarlierItem, Enumerate(items), Elements(Enumerate(items)));
    var ordered := SortBy(EarlierItem, Enumerate(items));
    assert |multiset(ordered)| == |ordered| && |multiset(Enumerate(items))| == |items|;
  }

  /** Sorting the items and sorting the rows they leave give the same list. */
  lemma {:induction false} SameOrder(rows: map<Place, Row>, s: nat, items: seq<Item>, ordered: seq<Ranked>)
    requires BaselineRows(rows, s, items) && Sorted(EarlierItem, ordered)
    requires forall r :: r in ordered <==> r in Enumerate(items)
    ensures Sorted(Order(rows, s), BvidList(ordered)) && Elements(BvidList(ordered)) == ActiveOf(rows, s)
  {
    var list := BvidList(ordered);
    forall i, j | 0 <= i < j < |list| ensures Order(rows, s)(list[i], list[j]) {
      assert EarlierItem(ordered[i], ordered[j]) && ordered[i] in ordered && ordered[j] in ordered;
    }
    forall b ensures b in Elements(list) <==> b in ActiveOf(rows, s) {
      if b in Elements(list) {
        var i :| 0 <= i < |list| && list[i] == b;
        assert ordered[i] in ordered;
        assert Place(s, b) in rows;
      }
      if b in ActiveOf(rows, s) {
        var k :| k in rows && k.source == s && !rows[k].removed && k.bvid == b;
        var i :| 0 <= i < |items| && items[i].bvid == b;
        assert Enumerate(items)[i] in ordered;
        var j :| 0 <= j < |ordered| && ordered[j] == Enumerate(items)[i];
        assert list[j] == b;
      }
    }
  }

  /** On a source with no earlier rows, the choice the baseline makes in memory and the later
      coverage query select the same items, with the same cutoff. */
  lemma {:induction false} BaselineAgreesWithCoverage(db: Db, s: nat, items: seq<Item>, now: int, later: int)
    requires s in db.sources && Fresh(db.rows, s) && DistinctItems(items)
    requires var src := db.sources[s]; src.policy == All || (src.policy == LatestN && src.limit.Some?)
    ensures var src, d := db.sources[s], Baseline(db, s, items, true, now);
      && Selected(d.rows, s, src.policy, src.limit) == Bvids(LatestItems(items, HistorySize(src, |items|)))
      && Cutoff(RowTimes(d.rows, s, Selected(d.rows, s, src.policy, src.limit)), src.policy, later) == d.sources[s].cutoff
  {
    var src := db.sources[s];
    var n := HistorySize(src, |items|);
    var latest := LatestItems(items, n);
    var rows := BaselineAll(db, s, items, Bvids(latest), now).rows;
    BaselineLeaves(db, s, items, Bvids(latest), now);
    OrderedItems(items);
    var ordered := SortBy(EarlierItem, Enumerate(items));
    SameOrder(rows, s, items, ordered);
    SelectionIsPrefix(rows, s, BvidList(ordered), src.policy, src.limit);
    PrefixBvids(ordered, if n < |ordered| then n else |ordered|);
    SameTimes(rows, s, items, ordered, latest);
  }

  lemma {:induction false} PrefixBvids(ordered: seq<Ranked>, n: nat)
    requires n <= |ordered|
    ensures Elements(BvidList(ordered)[..n]) == Bvids(ordered[..n])
  {
    var l := BvidList(ordered);
    forall b ensures b in Elements(l[..n]) <==> b in Bvids(ordered[..n]) {
      if b in Elements(l[..n]) {
        var i :| 0 <= i < n && l[i] == b;
        assert ordered[..n][i].item.bvid == b;
      }
      if b in Bvids(ordered[..n]) {
        var i :| 0 <= i < n && ordered[i].item.bvid == b;
        assert l[..n][i] == b;
      }
    }
  }

  lemma {:induction false} SameTimes(rows: map<Place, Row>, s: nat, items: seq<Item>, ordered: seq<Ranked>, latest: seq<Ranked>)
    requires BaselineRows(rows, s, items) && forall r :: r in ordered <==> r in Enumerate(items)
    requires latest <= ordered
    ensures RowTimes(rows, s, Bvids(latest)) == Times(latest)
  {
    forall r | r in latest ensures Place(s, r.item.bvid) in rows && rows[Place(s, r.item.bvid)].favorite == r.item.favorite {
      assert r in ordered;
    }
  }
}
