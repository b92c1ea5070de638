/** Favourite sources, their memberships, and the videos they hold: the membership writers of
    `src/shiliu/db.py`.  A video is identified by its bvid, as its unique key has it; removal times
    are reduced to whether they are set. */
module Collection {
  import opened Wrappers
  import opened Orders

  type Bvid = string

  datatype Item = Item(bvid: Bvid, favorite: Option<int>)

  /** The key of a membership row. */
  datatype Place = Place(source: nat, bvid: Bvid)

  datatype Policy = FutureOnly | LatestN | All

  datatype Status = Active | Paused | Halted

  /** `complete`: discovery_complete; `settled`: history_updated_at is set. */
  datatype Source = Source(policy: Policy, limit: Option<nat>, complete: bool, settled: bool, cutoff: Option<int>, status: Status)

  /** `linked`: video_id is set; `number`: membership_seq. */
  datatype Row = Row(number: nat, linked: bool, favorite: Option<int>, position: int, baseline: bool, queued: bool,
                     removed: bool, observed: int)

  datatype Video = Video(id: nat, removed: bool, archived: bool, marked: bool, noted: bool, display: Option<int>, discovered: int)

  datatype Db = Db(rows: map<Place, Row>, videos: map<Bvid, Video>, sources: map<nat, Source>, highwater: nat, nextId: nat)

  datatype Error = UnknownKey | BadValue

  function OrNow(t: Option<int>, now: int): int {
    if t.Some? && t.value != 0 then t.value else now
  }

  function OrZero(t: Option<int>): int {
    if t.Some? then t.value else 0
  }

  /** `create_video`: insert, or revive the row of the same bvid. */
  function CreateVideo(db: Db, b: Bvid, display: int, now: int): Db {
    if b in db.videos then db.(videos := db.videos[b := db.videos[b].(removed := false, display := Some(display))])
    else db.(videos := db.videos[b := Video(db.nextId, false, false, false, false, Some(display), now)], nextId := db.nextId + 1)
  }

  /** `_membership`. */
  function Membership(db: Db, s: nat, item: Item, position: int, linked: bool, baseline: bool, queued: bool, now: int): Db {
    var k := Place(s, item.bvid);
    if k in db.rows then
      var old_ := db.rows[k];
      db.(rows := db.rows[k := old_.(linked := old_.linked || linked, position := position, removed := false,
                                     favorite := if item.favorite.Some? then item.favorite else old_.favorite)])
    else
      db.(highwater := db.highwater + 1,
          rows := db.rows[k := Row(db.highwater + 1, linked, item.favorite, position, baseline, queued, false, now)])
  }

  /** `_observe_video`. */
  function Observe(db: Db, item: Item, reenter: bool, now: int): Db {
    if item.bvid !in db.videos then db
    else
      var v := db.videos[item.bvid];
      var w := if reenter then v.(archived := false, display := Some(OrNow(item.favorite, now))) else v;
      var shown := if OrZero(w.display) > OrZero(item.favorite) then OrZero(w.display) else OrZero(item.favorite);
      db.(videos := db.videos[item.bvid := w.(removed := false, display := Some(shown))])
  }

  /** `video_has_active_source`. */
  predicate HasActive(db: Db, b: Bvid) {
    exists k | k in db.rows :: k.bvid == b && db.rows[k].linked && !db.rows[k].removed &&
                               k.source in db.sources && db.sources[k.source].status == Active
  }

  // ---- the baseline scan -----------------------------------------------------------------------

  datatype Ranked = Ranked(item: Item, index: nat)

  function Enumerate(items: seq<Item>): (r: seq<Ranked>)
    ensures |r| == |items| && forall i :: 0 <= i < |r| ==> r[i] == Ranked(items[i], i)
  {
    seq(|items|, i requires 0 <= i < |items| => Ranked(items[i], i))
  }

  /** The sort key `(favorite_time is None, -(favorite_time or 0), index)`. */
  predicate EarlierItem(a: Ranked, b: Ranked) {
    if a.item.favorite.None? != b.item.favorite.None? then b.item.favorite.None?
    else if OrZero(a.item.favorite) != OrZero(b.item.favorite) then -OrZero(a.item.favorite) < -OrZero(b.item.favorite)
    else a.index < b.index
  }

  function HistorySize(src: Source, total: nat): nat {
    match src.policy
    case All => total
    case LatestN => if src.limit.Some? then src.limit.value else 0
    case FutureOnly => 0
  }

  /** `ordered[:n]`. */
  function LatestItems(items: seq<Item>, n: nat): seq<Ranked> {
    var ordered := SortBy(EarlierItem, Enumerate(items));
    ordered[..if n < |ordered| then n else |ordered|]
  }

  function Bvids(ranked: seq<Ranked>): set<Bvid> {
    set r | r in ranked :: r.item.bvid
  }

  function Times(ranked: seq<Ranked>): set<int> {
    set r | r in ranked && r.item.favorite.Some? :: r.item.favorite.value
  }

  /** `min(times)`. */
  ghost function Least(times: set<int>): (m: int)
    requires times != {}
    ensures m in times && forall t :: t in times ==> m <= t
  {
    LeastExists(times);
    var m :| m in times && forall t :: t in times ==> m <= t;
    m
  }

  lemma {:induction false} SomeTime(times: set<int>)
    requires times != {}
    ensures exists t: int :: t in times
  {
    if !exists t: int :: t in times {
      assert false;
    }
  }

  ghost predicate IsLeast(m: int, times: set<int>) {
    m in times && forall t :: t in times ==> m <= t
  }

  lemma {:induction false} LeastOf(times: set<int>) returns (m: int)
    requires times != {}
    ensures IsLeast(m, times)
    decreases |times|
  {
    SomeTime(times);
    var x: int :| x in times;
    var rest := times - {x};
    m := x;
    if rest != {} {
      var n := LeastOf(rest);
      m := if x <= n then x else n;
    }
    forall t | t in times ensures m <= t {
      assert t == x || t in rest;
    }
  }

  lemma {:induction false} LeastExists(times: set<int>)
    requires times != {}
    ensures exists m :: m in times && forall t :: t in times ==> m <= t
  {
    var m := LeastOf(times);
  }

  ghost function Cutoff(times: set<int>, policy: Policy, now: int): Option<int> {
    if times != {} then Some(Least(times)) else if policy == FutureOnly then Some(now) else None
  }

  function BaselineStep(db: Db, s: nat, item: Item, position: int, chosen: set<Bvid>, now: int): Db {
    var known := item.bvid in db.videos;
    var active := known && HasActive(db, item.bvid);
    var d := Membership(db, s, item, position, known, item.bvid !in chosen, item.bvid in chosen, now);
    if known then Observe(d, item, db.videos[item.bvid].archived || !active, now) else d
  }

  function BaselineAll(db: Db, s: nat, items: seq<Item>, chosen: set<Bvid>, now: int): Db {
    if items == [] then db
    else
      var n := |items| - 1;
      BaselineStep(BaselineAll(db, s, items[..n], chosen, now), s, items[n], n, chosen, now)
  }

  /** `initialize_source_memberships`, for a known source. */
  ghost function Baseline(db: Db, s: nat, items: seq<Item>, authoritative: bool, now: int): Db
    requires s in db.sources
  {
    var src := db.sources[s];
    var latest := if authoritative then LatestItems(items, HistorySize(src, |items|)) else [];
    var d := BaselineAll(db, s, items, Bvids(latest), now);
    if authoritative then
      d.(sources := d.sources[s := src.(complete := true, settled := true, cutoff := Cutoff(Times(latest), src.policy, now))])
    else d
  }

  // ---- the forward scan ------------------------------------------------------------------------

  /** The scan meets an item that has no row yet, or only a removed row without a video. */
  predicate Unseen(known: map<Place, Row>, k: Place) {
    k !in known || (known[k].removed && !known[k].linked)
  }

  /** The row will have a video. */
  predicate Links(known: map<Place, Row>, k: Place) {
    Unseen(known, k) || known[k].linked
  }

  function Fetched(db: Db, known: map<Place, Row>, s: nat, item: Item, now: int): Db {
    if Unseen(known, Place(s, item.bvid)) then CreateVideo(db, item.bvid, OrNow(item.favorite, now), now) else db
  }

  /** The video comes back into the library. */
  predicate Reenters(db: Db, known: map<Place, Row>, k: Place) {
    (k !in known || known[k].removed) && ((k.bvid in db.videos && db.videos[k.bvid].archived) || !HasActive(db, k.bvid))
  }

  /** `known` holds the rows as they were before the scan. */
  function SnapshotStep(db: Db, known: map<Place, Row>, s: nat, item: Item, position: int, now: int): Db {
    var k := Place(s, item.bvid);
    var d := Fetched(db, known, s, item, now);
    var e := Membership(d, s, item, position, Links(known, k), false, false, now);
    if Links(known, k) then Observe(e, item, Reenters(d, known, k), now) else e
  }

  function SnapshotAll(db: Db, known: map<Place, Row>, s: nat, items: seq<Item>, now: int): Db {
    if items == [] then db
    else
      var n := |items| - 1;
      SnapshotStep(SnapshotAll(db, known, s, items[..n], now), known, s, items[n], n, now)
  }

  function Ids(items: seq<Item>): set<Bvid> {
    set i | i in items :: i.bvid
  }

  function BvidsOf(items: seq<Item>): (r: seq<Bvid>)
    ensures |r| == |items| && forall i :: 0 <= i < |r| ==> r[i] == items[i].bvid
  {
    seq(|items|, i requires 0 <= i < |items| => items[i].bvid)
  }

  /** A scan lists each video once. */
  ghost predicate DistinctItems(items: seq<Item>) {
    forall i, j :: 0 <= i < j < |items| ==> items[i].bvid != items[j].bvid
  }

  /** Some source still holds the video. */
  predicate Held(rows: map<Place, Row>, b: Bvid) {
    exists k | k in rows :: k.bvid == b && rows[k].linked && !rows[k].removed
  }

  function Unlisted(rows: map<Place, Row>, s: nat, ids: set<Bvid>): map<Place, Row> {
    map k | k in rows :: if k.source == s && k.bvid !in ids then rows[k].(removed := true) else rows[k]
  }

  function Recomputed(videos: map<Bvid, Video>, rows: map<Place, Row>, s: nat): map<Bvid, Video> {
    map b | b in videos ::
      if Place(s, b) in rows && rows[Place(s, b)].linked then videos[b].(removed := !Held(rows, b)) else videos[b]
  }

  /** The two set-based updates that end an authoritative scan. */
  function Sweep(db: Db, s: nat, ids: set<Bvid>): Db {
    var rows := Unlisted(db.rows, s, ids);
    db.(rows := rows, videos := Recomputed(db.videos, rows, s))
  }

  function Synced(src: Source, authoritative: bool): Source {
    src.(status := if src.status == Paused then Paused else Active, complete := src.complete || authoritative)
  }

  /** `record_source_snapshot`, for a known source. */
  function Snapshot(db: Db, s: nat, items: seq<Item>, authoritative: bool, now: int): Db
    requires s in db.sources
  {
    var d := SnapshotAll(db, db.rows, s, items, now);
    var e := if authoritative then Sweep(d, s, Ids(items)) else d;
    e.(sources := e.sources[s := Synced(db.sources[s], authoritative)])
  }

  // ---- history coverage ------------------------------------------------------------------------

  /** `ORDER BY favorite_time DESC NULLS LAST, source_position, bvid`. */
  predicate EarlierRow(a: Row, x: Bvid, b: Row, y: Bvid) {
    if a.favorite.None? != b.favorite.None? then b.favorite.None?
    else if OrZero(a.favorite) != OrZero(b.favorite) then OrZero(a.favorite) > OrZero(b.favorite)
    else if a.position != b.position then a.position < b.position
    else Lex(x, y)
  }

  predicate Earlier(rows: map<Place, Row>, s: nat, x: Bvid, y: Bvid) {
    Place(s, x) in rows && Place(s, y) in rows && EarlierRow(rows[Place(s, x)], x, rows[Place(s, y)], y)
  }

  function Order(rows: map<Place, Row>, s: nat): (Bvid, Bvid) -> bool {
    (x, y) => Earlier(rows, s, x, y)
  }

  function ActiveOf(rows: map<Place, Row>, s: nat): set<Bvid> {
    set k | k in rows && k.source == s && !rows[k].removed :: k.bvid
  }

  /** The rows a policy selects: those with fewer than N active rows before them. */
  ghost function Selected(rows: map<Place, Row>, s: nat, policy: Policy, limit: Option<nat>): set<Bvid> {
    match policy
    case All => ActiveOf(rows, s)
    case LatestN => TopN(Order(rows, s), ActiveOf(rows, s), if limit.Some? then limit.value else 0)
    case FutureOnly => {}
  }

  function RowTimes(rows: map<Place, Row>, s: nat, chosen: set<Bvid>): set<int> {
    set b | b in chosen && Place(s, b) in rows && rows[Place(s, b)].favorite.Some? :: rows[Place(s, b)].favorite.value
  }

  function Requeued(rows: map<Place, Row>, s: nat, chosen: set<Bvid>): map<Place, Row> {
    map k | k in rows ::
      if k.source == s && !rows[k].removed then
        rows[k].(queued := k.bvid in chosen && !rows[k].linked, baseline := rows[k].baseline && k.bvid !in chosen)
      else rows[k]
  }

  /** The limit that is stored. */
  function Kept(policy: Policy, limit: Option<nat>): Option<nat> {
    if policy == LatestN then limit else None
  }

  /** The asked coverage is the one in force: the call changes nothing. */
  predicate SameCoverage(src: Source, policy: Policy, limit: Option<nat>) {
    src.policy == policy && src.limit == Kept(policy, limit) && src.settled
  }

  function CoverageError(db: Db, s: nat, policy: Policy, limit: Option<nat>): Option<Error> {
    if policy == LatestN && (limit.None? || limit.value < 1) then Some(BadValue)
    else if s !in db.sources then Some(UnknownKey)
    else if !db.sources[s].complete then Some(BadValue)
    else None
  }

  /** `update_source_history_coverage`, once its arguments are accepted. */
  ghost function Coverage(db: Db, s: nat, policy: Policy, limit: Option<nat>, now: int): Db
    requires CoverageError(db, s, policy, limit).None?
  {
    var src := db.sources[s];
    if SameCoverage(src, policy, limit) then db
    else
      var chosen := Selected(db.rows, s, policy, limit);
      db.(rows := Requeued(db.rows, s, chosen),
          sources := db.sources[s := src.(policy := policy, limit := Kept(policy, limit), settled := true,
                                          cutoff := Cutoff(RowTimes(db.rows, s, chosen), policy, now))])
  }

  // ---- materialisation, sources, flags ---------------------------------------------------------

  function MaterializeError(db: Db, s: nat, b: Bvid): Option<Error> {
    var k := Place(s, b);
    if s !in db.sources || k !in db.rows || db.rows[k].removed || db.sources[s].status != Active then Some(UnknownKey)
    else if !db.rows[k].linked && !db.rows[k].queued then Some(UnknownKey)
    else None
  }

  /** `materialize_history_membership`, once its arguments are accepted. */
  function Materialize(db: Db, s: nat, b: Bvid, now: int): Db
    requires MaterializeError(db, s, b).None?
  {
    var k := Place(s, b);
    var r := db.rows[k];
    if r.linked then db
    else
      var d := CreateVideo(db, b, OrNow(r.favorite, r.observed), now);
      d.(rows := d.rows[k := d.rows[k].(linked := true, queued := false, baseline := false)])
  }

  /** `remove_source`: its memberships go with it; no video is touched. */
  function RemoveSource(db: Db, s: nat): Db {
    db.(sources := map x | x in db.sources && x != s :: db.sources[x],
        rows := map k | k in db.rows && k.source != s :: db.rows[k])
  }

  /** Everything that is done to the collection, as one transaction each. */
  datatype Op =
    | AddSource(s: nat, src: Source)
    | SetStatus(s: nat, status: Status)
    | SetFlags(b: Bvid, archived: bool, marked: bool, noted: bool)
    | AddVideo(b: Bvid, display: int, now: int)
    | ScanBaseline(s: nat, items: seq<Item>, authoritative: bool, now: int)
    | ScanSnapshot(s: nat, items: seq<Item>, authoritative: bool, now: int)
    | SetCoverage(s: nat, policy: Policy, limit: Option<nat>, now: int)
    | MaterializeRow(s: nat, b: Bvid, now: int)
    | DropSource(s: nat)

  /** A transaction that fails leaves everything as it was. */
  ghost function Apply(db: Db, op: Op): Db {
    match op
    case AddSource(s, src) => if s in db.sources then db else db.(sources := db.sources[s := src])
    case SetStatus(s, status) => if s in db.sources then db.(sources := db.sources[s := db.sources[s].(status := status)]) else db
    case SetFlags(b, archived, marked, noted) =>
      if b in db.videos then db.(videos := db.videos[b := db.videos[b].(archived := archived, marked := marked, noted := noted)]) else db
    case AddVideo(b, display, now) => CreateVideo(db, b, display, now)
    case ScanBaseline(s, items, authoritative, now) => if s in db.sources then Baseline(db, s, items, authoritative, now) else db
    case ScanSnapshot(s, items, authoritative, now) => if s in db.sources then Snapshot(db, s, items, authoritative, now) else db
    case SetCoverage(s, policy, limit, now) => if CoverageError(db, s, policy, limit).None? then Coverage(db, s, policy, limit, now) else db
    case MaterializeRow(s, b, now) => if MaterializeError(db, s, b).None? then Materialize(db, s, b, now) else db
    case DropSource(s) => RemoveSource(db, s)
  }

  ghost function After(db: Db, ops: seq<Op>): Db {
    if ops == [] then db else Apply(After(db, ops[..|ops| - 1]), ops[|ops| - 1])
  }

  const EMPTY := Db(map[], map[], map[], 0, 0)

  lemma {:induction false} AfterSnoc(db: Db, ops: seq<Op>, op: Op)
    ensures After(db, ops + [op]) == Apply(After(db, ops), op)
  {
    assert (ops + [op])[..|ops|] == ops;
  }

  lemma {:induction false} AfterFour(a: Op, b: Op, c: Op, d: Op)
    ensures After(EMPTY, [a, b, c, d]) == Apply(Apply(Apply(Apply(EMPTY, a), b), c), d)
  {
    assert [] + [a] == [a] && [a] + [b] == [a, b] && [a, b] + [c] == [a, b, c] && [a, b, c] + [d] == [a, b, c, d];
    AfterSnoc(EMPTY, [], a);
    AfterSnoc(EMPTY, [a], b);
    AfterSnoc(EMPTY, [a, b], c);
    AfterSnoc(EMPTY, [a, b, c], d);
  }
}
