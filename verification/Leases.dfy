/** Row leases of `src/shiliu/db.py`: claim, heartbeat, release, and the guards every
    leased write passes.  One `Table` value is one leased row together with the database
    clock; each operation is one transaction.  `writes` and `grants` are history: they
    record what was committed and to whom the lease was given. */
module Leases {
  import opened Wrappers

  /** The columns `lease_owner`, `lease_epoch` and `lease_until`. */
  datatype Lease = Lease(owner: Option<nat>, epoch: nat, until: Option<int>)

  /** What a successful claim hands to its worker. */
  datatype Claim = Claim(owner: nat, epoch: nat)

  /** A committed write; `owner` is None for a write made while the row was unclaimed. */
  datatype Commit = Commit(owner: Option<nat>, epoch: nat, value: int)

  datatype Table = Table(now: int, lease: Lease, content: int, writes: seq<Commit>, grants: seq<Claim>)

  datatype Op =
    | Tick(d: nat)
    | Take(owner: nat, seconds: int)
    | Beat(c: Claim, seconds: int)
    | Release(c: Claim)
    | Write(c: Claim, value: int)
    | Batch(c: Claim, value: int, elapsed: nat)
    | OpenWrite(value: int)
    | Revoke

  predicate Live(l: Lease, now: int) {
    l.until.Some? && l.until.value > now
  }

  predicate Current(l: Lease, c: Claim) {
    l.owner == Some(c.owner) && l.epoch == c.epoch
  }

  /** `check_lease`: owner, epoch and database time must all agree. */
  predicate Passes(l: Lease, c: Claim, now: int) {
    Current(l, c) && Live(l, now)
  }

  predicate ValidSeconds(seconds: int) {
    0 < seconds <= 600
  }

  /** A lease that is held and not expired keeps every other claimant out. */
  predicate Busy(l: Lease, now: int) {
    l.owner.Some? && Live(l, now)
  }

  function Taken(l: Lease, owner: nat, now: int, seconds: int): Lease {
    Lease(Some(owner), l.epoch + 1, Some(now + seconds))
  }

  function Freed(l: Lease): Lease {
    Lease(None, l.epoch, None)
  }

  /** Taking a lease away (uncertain outcome, or a reset) raises the epoch as well. */
  function Revoked(l: Lease): Lease {
    Lease(None, l.epoch + 1, None)
  }

  function Committed(t: Table, owner: Option<nat>, value: int): Table {
    t.(content := value, writes := t.writes + [Commit(owner, t.lease.epoch, value)])
  }

  /** One transaction; a transaction that raises leaves the row as it was. */
  function Apply(t: Table, op: Op): Table {
    match op
    case Tick(d) => t.(now := t.now + d)
    case Take(owner, seconds) =>
      if !ValidSeconds(seconds) || Busy(t.lease, t.now) then t
      else
        t.(lease := Taken(t.lease, owner, t.now, seconds), grants := t.grants + [Claim(owner, t.lease.epoch + 1)])
    case Beat(c, seconds) =>
      if ValidSeconds(seconds) && Passes(t.lease, c, t.now)
      then t.(lease := t.lease.(until := Some(t.now + seconds))) else t
    case Release(c) => if Passes(t.lease, c, t.now) then t.(lease := Freed(t.lease)) else t
    case Write(c, value) => if Passes(t.lease, c, t.now) then Committed(t, Some(c.owner), value) else t
    case Batch(c, value, elapsed) =>
      // `_source_write`: checked on entry and, because the body takes time, again before commit
      var late := t.(now := t.now + elapsed);
      if Passes(t.lease, c, t.now) && Passes(t.lease, c, late.now) then Committed(late, Some(c.owner), value) else late
    case OpenWrite(value) => if t.lease.owner.None? then Committed(t, None, value) else t
    case Revoke => t.(lease := Revoked(t.lease))
  }

  function After(t: Table, ops: seq<Op>): Table
    decreases |ops|
  {
    if ops == [] then t else After(Apply(t, ops[0]), ops[1..])
  }

  /** What every history keeps. */
  ghost predicate Fenced(t: Table) {
    && (forall i, j :: 0 <= i < j < |t.grants| ==> t.grants[i].epoch < t.grants[j].epoch)
    && (forall i :: 0 <= i < |t.grants| ==> t.grants[i].epoch <= t.lease.epoch)
    && (t.lease.owner.Some? ==> Claim(t.lease.owner.value, t.lease.epoch) in t.grants)
    && (forall i, j :: 0 <= i < j < |t.writes| ==> t.writes[i].epoch <= t.writes[j].epoch)
    && (forall i :: 0 <= i < |t.writes| ==> t.writes[i].epoch <= t.lease.epoch)
    && (forall i :: 0 <= i < |t.writes| && t.writes[i].owner.Some? ==>
          Claim(t.writes[i].owner.value, t.writes[i].epoch) in t.grants)
  }

  lemma {:induction false} FencedStep(t: Table, op: Op)
    requires Fenced(t)
    ensures Fenced(Apply(t, op))
  {
    var u := Apply(t, op);
    assert forall c :: c in t.grants ==> c in u.grants;
    if op.Take? && u != t {
      assert u.grants[|t.grants|] == Claim(op.owner, u.lease.epoch);
    }
  }

  /** Fencing over every history of one row: grants get strictly rising epochs, commits are
      ordered by epoch, and every guarded commit belongs to the one worker that was granted
      its epoch. */
  lemma {:induction false} FencedHistory(t: Table, ops: seq<Op>)
    requires Fenced(t)
    ensures Fenced(After(t, ops))
    decreases |ops|
  {
    if ops != [] {
      FencedStep(t, ops[0]);
      FencedHistory(Apply(t, ops[0]), ops[1..]);
    }
  }

  /** Two commits under one epoch come from one worker. */
  lemma {:induction false} OneWriterPerEpoch(t: Table, ops: seq<Op>, i: nat, j: nat)
    requires Fenced(t)
    requires var w := After(t, ops).writes; i < |w| && j < |w| && w[i].epoch == w[j].epoch && w[i].owner.Some? && w[j].owner.Some?
    ensures After(t, ops).writes[i].owner == After(t, ops).writes[j].owner
  {
    FencedHistory(t, ops);
    var u := After(t, ops);
    var a := Claim(u.writes[i].owner.value, u.writes[i].epoch);
    var b := Claim(u.writes[j].owner.value, u.writes[j].epoch);
    assert a in u.grants && b in u.grants;
    var x :| 0 <= x < |u.grants| && u.grants[x] == a;
    var y :| 0 <= y < |u.grants| && u.grants[y] == b;
    assert x == y;
  }

  /** The epoch of a row never decreases, committed writes are never rewritten, time only
      moves forward, and a claim that is granted raises the epoch by exactly one. */
  lemma {:induction false} HistoryOnlyGrows(t: Table, ops: seq<Op>)
    ensures var u := After(t, ops);
      && t.lease.epoch <= u.lease.epoch
      && t.now <= u.now
      && t.writes <= u.writes
      && t.grants <= u.grants
      && |u.grants| - |t.grants| <= u.lease.epoch - t.lease.epoch
    decreases |ops|
  {
    if ops != [] {
      HistoryOnlyGrows(Apply(t, ops[0]), ops[1..]);
    }
  }

  /** A claim is granted exactly when no live lease is held, whoever asks. */
  lemma {:induction false} ClaimGrantedIff(t: Table, owner: nat, seconds: int)
    requires ValidSeconds(seconds)
    ensures !Busy(t.lease, t.now) <==> Apply(t, Take(owner, seconds)).grants == t.grants + [Claim(owner, t.lease.epoch + 1)]
    ensures Busy(t.lease, t.now) <==> Apply(t, Take(owner, seconds)) == t
    ensures !Busy(t.lease, t.now) ==> Passes(Apply(t, Take(owner, seconds)).lease, Claim(owner, t.lease.epoch + 1), t.now)
  {
    if Busy(t.lease, t.now) {
      assert Apply(t, Take(owner, seconds)) == t;
      assert |t.grants| != |t.grants + [Claim(owner, t.lease.epoch + 1)]|;
    } else {
      assert Apply(t, Take(owner, seconds)).lease.epoch != t.lease.epoch;
    }
  }

  /** Once the epoch has passed a worker's claim, nothing that worker still does has any
      effect, however the history continues: its writes, batches, heartbeats and its release
      all leave the row alone (a batch only lets time pass). */
  lemma {:induction false} StaleWorkerIsInert(t: Table, c: Claim, ops: seq<Op>, value: int, seconds: int, elapsed: nat)
    requires c.epoch < t.lease.epoch
    ensures var u := After(t, ops);
      && Apply(u, Write(c, value)) == u
      && Apply(u, Beat(c, seconds)) == u
      && Apply(u, Release(c)) == u
      && Apply(u, Batch(c, value, elapsed)) == u.(now := u.now + elapsed)
  {
    HistoryOnlyGrows(t, ops);
  }

  /** A batch commits if and only if its claim is current and still live at the end; the check
      on entry is implied, because the lease cannot be extended inside the transaction. */
  lemma {:induction false} BatchCommitsIff(t: Table, c: Claim, value: int, elapsed: nat)
    ensures (Apply(t, Batch(c, value, elapsed)).writes == t.writes + [Commit(Some(c.owner), c.epoch, value)])
      <==> Current(t.lease, c) && Live(t.lease, t.now + elapsed)
    ensures !(Current(t.lease, c) && Live(t.lease, t.now + elapsed)) ==>
      Apply(t, Batch(c, value, elapsed)) == t.(now := t.now + elapsed)
  {
    if !(Current(t.lease, c) && Live(t.lease, t.now + elapsed)) {
      assert |t.writes| != |t.writes + [Commit(Some(c.owner), c.epoch, value)]|;
    }
  }

  // ---- while a lease lasts ---------------------------------------------------------------------

  /** Nothing that ends or replaces the lease of `c` before its time. */
  predicate Spares(op: Op, c: Claim) {
    op != Release(c) && !op.Revoke? && !(op.Beat? && op.c == c)
  }

  /** What goes on under one lease: nothing is granted, and whatever is committed belongs to it. */
  ghost predicate SameTerm(t: Table, u: Table, c: Claim) {
    && u.lease == t.lease && u.grants == t.grants && t.writes <= u.writes
    && forall i :: |t.writes| <= i < |u.writes| ==> u.writes[i].owner == Some(c.owner) && u.writes[i].epoch == c.epoch
  }

  lemma {:induction false} TermLasts(t: Table, c: Claim, ops: seq<Op>)
    requires Passes(t.lease, c, t.now) && After(t, ops).now < t.lease.until.value
    requires forall i :: 0 <= i < |ops| ==> Spares(ops[i], c)
    ensures SameTerm(t, After(t, ops), c)
    decreases |ops|
  {
    if ops != [] {
      var u := Apply(t, ops[0]);
      HistoryOnlyGrows(u, ops[1..]);
      assert Spares(ops[0], c);
      assert SameTerm(t, u, c);
      TermLasts(u, c, ops[1..]);
    }
  }

  /** A heartbeat that is accepted gives the whole term anew: until then the claim passes, nobody else
      is granted the row and nobody else commits to it, whatever happens, unless its own worker
      releases it or beats again, or it is revoked. */
  lemma {:induction false} HeartbeatHolds(t: Table, c: Claim, seconds: int, ops: seq<Op>)
    requires ValidSeconds(seconds) && Passes(t.lease, c, t.now)
    requires var u := After(Apply(t, Beat(c, seconds)), ops); u.now < t.now + seconds
    requires forall i :: 0 <= i < |ops| ==> Spares(ops[i], c)
    ensures var u := After(Apply(t, Beat(c, seconds)), ops);
      && u.grants == t.grants && Passes(u.lease, c, u.now)
      && forall i :: |t.writes| <= i < |u.writes| ==> u.writes[i].owner == Some(c.owner) && u.writes[i].epoch == c.epoch
  {
    TermLasts(Apply(t, Beat(c, seconds)), c, ops);
  }

  /** The same for the term that a claim gives. */
  lemma {:induction false} ClaimHolds(t: Table, owner: nat, seconds: int, ops: seq<Op>)
    requires ValidSeconds(seconds) && !Busy(t.lease, t.now)
    requires var u := After(Apply(t, Take(owner, seconds)), ops); u.now < t.now + seconds
    requires forall i :: 0 <= i < |ops| ==> Spares(ops[i], Claim(owner, t.lease.epoch + 1))
    ensures var u, c := After(Apply(t, Take(owner, seconds)), ops), Claim(owner, t.lease.epoch + 1);
      && u.grants == t.grants + [c] && Passes(u.lease, c, u.now)
      && forall i :: |t.writes| <= i < |u.writes| ==> u.writes[i].owner == Some(owner) && u.writes[i].epoch == c.epoch
  {
    TermLasts(Apply(t, Take(owner, seconds)), Claim(owner, t.lease.epoch + 1), ops);
  }

  /** A release that is accepted lets the next worker in at once. */
  lemma {:induction false} ReleaseFrees(t: Table, c: Claim, owner: nat, seconds: int)
    requires ValidSeconds(seconds) && Passes(t.lease, c, t.now)
    ensures var u := Apply(Apply(t, Release(c)), Take(owner, seconds));
      && u.grants == t.grants + [Claim(owner, c.epoch + 1)] && Passes(u.lease, Claim(owner, c.epoch + 1), t.now)
      && !Passes(u.lease, c, t.now)
  {
  }

  /** The row as the database holds it: each method is one transaction of `db.py` and changes
      the columns in place. */
  class LeasedRow {
    var now: int
    var lease: Lease
    var content: int
    ghost var writes: seq<Commit>
    ghost var grants: seq<Claim>

    ghost function State(): Table
      reads this
    {
      Table(now, lease, content, writes, grants)
    }

    constructor (start: int, value: int)
      ensures State() == Table(start, Lease(None, 0, None), value, [], []) && Fenced(State())
    {
      now, lease, content, writes, grants := start, Lease(None, 0, None), value, [], [];
    }

    /** `_claim` on a source row: refused while another live lease is held. */
    method TakeLease(owner: nat, seconds: int) returns (granted: Option<Claim>)
      modifies this
      ensures State() == Apply(old(State()), Take(owner, seconds))
      ensures granted == if ValidSeconds(seconds) && !Busy(old(lease), old(now)) then Some(Claim(owner, old(lease).epoch + 1)) else None
    {
      if !(0 < seconds <= 600) {
        return None;
      }
      if lease.owner.Some? && Live(lease, now) {
        return None;
      }
      lease := Lease(Some(owner), lease.epoch + 1, Some(now + seconds));
      grants := grants + [Claim(owner, lease.epoch)];
      granted := Some(Claim(owner, lease.epoch));
    }

    method CheckLease(c: Claim) returns (ok: bool)
      ensures ok <==> Passes(lease, c, now)
    {
      ok := lease.owner == Some(c.owner) && lease.epoch == c.epoch;
      if ok {
        ok := lease.until.Some? && lease.until.value > now;
      }
    }

    method Heartbeat(c: Claim, seconds: int) returns (ok: bool)
      modifies this
      ensures State() == Apply(old(State()), Beat(c, seconds))
      ensures ok <==> ValidSeconds(seconds) && Passes(old(lease), c, old(now))
    {
      ok := false;
      if 0 < seconds <= 600 {
        ok := CheckLease(c);
        if ok {
          lease := lease.(until := Some(now + seconds));
        }
      }
    }

    method ReleaseLease(c: Claim) returns (ok: bool)
      modifies this
      ensures State() == Apply(old(State()), Release(c))
      ensures ok <==> Passes(old(lease), c, old(now))
    {
      ok := CheckLease(c);
      if ok {
        lease := lease.(owner := None, until := None);
      }
    }

    /** A write with `claim=`: the guard and the update are one transaction. */
    method GuardedWrite(c: Claim, value: int) returns (ok: bool)
      modifies this
      ensures State() == Apply(old(State()), Write(c, value))
      ensures ok <==> Passes(old(lease), c, old(now))
    {
      ok := CheckLease(c);
      if ok {
        content := value;
        writes := writes + [Commit(Some(c.owner), lease.epoch, value)];
      }
    }

    /** A write with `claim=None` goes through `_assert_unclaimed`. */
    method UnclaimedWrite(value: int) returns (ok: bool)
      modifies this
      ensures State() == Apply(old(State()), OpenWrite(value))
      ensures ok <==> old(lease).owner.None?
    {
      ok := lease.owner.None?;
      if ok {
        content := value;
        writes := writes + [Commit(None, lease.epoch, value)];
      }
    }

    /** `_source_write`: the body runs between two checks and is rolled back when the second fails. */
    method SourceWrite(c: Claim, value: int, elapsed: nat) returns (ok: bool)
      modifies this
      ensures State() == Apply(old(State()), Batch(c, value, elapsed))
      ensures ok <==> Current(old(lease), c) && Live(old(lease), old(now) + elapsed)
    {
      ok := CheckLease(c);
      var before, history := content, writes;
      if ok {
        content := value;
        writes := writes + [Commit(Some(c.owner), lease.epoch, value)];
      }
      now := now + elapsed;
      if ok {
        ok := CheckLease(c);
        if !ok {
          content, writes := before, history;
        }
      }
    }
  }
}
