/** Publication-time backfill with rollback: `src/shiliu/metadata_backfill.py`, for videos without a
    source head.  One run is modelled; candidate hashes are taken as injective. */
module Backfill {
  import opened Wrappers

  /** The columns a backfill writes. */
  datatype Triple = Triple(published: Option<int>, observed: Option<int>, updated: int)

  /** `identity`: bvid and part; `eligible`: in scope for maintenance. */
  datatype Video = Video(identity: nat, eligible: bool, triple: Triple)

  datatype Candidate = Candidate(video: nat, identity: nat, published: int, observed: int)

  datatype State = Staged | Applied | Skipped | RollbackPending | RolledBack | RollbackConflict

  datatype Operation = Operation(candidate: Candidate, state: State, before: Triple, after: Triple)

  /** `holds`: held reconcile jobs and their video; `manifest`: the run's target digest. */
  datatype Db = Db(videos: map<nat, Video>, ops: map<nat, Operation>, holds: map<nat, nat>, manifest: Option<set<Candidate>>)

  const BLANK := Triple(None, None, 0)

  // ---- staging ---------------------------------------------------------------------------------

  predicate DistinctVideos(candidates: seq<Candidate>) {
    forall i, j :: 0 <= i < j < |candidates| ==> candidates[i].video != candidates[j].video
  }

  function Targets(candidates: seq<Candidate>): set<Candidate> {
    set c | c in candidates
  }

  /** Insert the operations that are not there yet. */
  function Inserted(ops: map<nat, Operation>, candidates: seq<Candidate>): map<nat, Operation> {
    if candidates == [] then ops
    else
      var init, c := Inserted(ops, candidates[..|candidates| - 1]), candidates[|candidates| - 1];
      if c.video in init then init else init[c.video := Operation(c, Staged, BLANK, BLANK)]
  }

  /** The target digest and every operation already there agree with the candidates. */
  predicate StageAccepted(db: Db, candidates: seq<Candidate>) {
    && DistinctVideos(candidates)
    && (db.manifest.None? || db.manifest.value == Targets(candidates))
    && (forall c :: c in candidates && c.video in db.ops ==> db.ops[c.video].candidate == c)
  }

  /** `stage`: all operations or none. */
  function Stage(db: Db, candidates: seq<Candidate>): Db {
    if StageAccepted(db, candidates) then db.(ops := Inserted(db.ops, candidates), manifest := Some(Targets(candidates))) else db
  }

  // ---- the transactions of apply and rollback --------------------------------------------------

  /** `_target`. */
  function Target(db: Db, c: Candidate): Option<Video> {
    if c.video in db.videos && db.videos[c.video].identity == c.identity && db.videos[c.video].eligible then Some(db.videos[c.video])
    else None
  }

  datatype Verdict = Mismatch | KnownSame | KnownConflict | Written

  function Judge(db: Db, c: Candidate): Verdict {
    match Target(db, c)
    case None => Mismatch
    case Some(row) =>
      if row.triple.published == Some(c.published) then KnownSame
      else if row.triple.published.Some? then KnownConflict
      else Written
  }

  /** `_hold`: jobs already held stay as they are. */
  function Hold(holds: map<nat, nat>, v: nat, found: set<nat>): map<nat, nat> {
    map j | j in holds.Keys + found :: if j in holds then holds[j] else v
  }

  /** Apply's transaction on one staged operation; `found` are the reconcile jobs that wait. */
  function ApplyOne(db: Db, v: nat, found: set<nat>, now: int): Db {
    if v !in db.ops || db.ops[v].state != Staged || db.ops[v].candidate.video != v then db
    else
      var op := db.ops[v];
      if Judge(db, op.candidate) != Written then db.(ops := db.ops[v := op.(state := Skipped)])
      else
        var row := db.videos[v];
        var written := Triple(Some(op.candidate.published), Some(op.candidate.observed), now);
        db.(videos := db.videos[v := row.(triple := written)],
            holds := Hold(db.holds, v, found),
            ops := db.ops[v := op.(state := Applied, before := row.triple.(published := None), after := written)])
  }

  /** The row still equals what the operation recorded. */
  predicate Intact(db: Db, op: Operation) {
    match Target(db, op.candidate)
    case None => false
    case Some(row) => row.triple == if op.state == RollbackPending then op.before else op.after
  }

  /** Rollback's first transaction: compare and restore, or mark a conflict. */
  function Restore(db: Db, v: nat, found: set<nat>): Db {
    if v !in db.ops || db.ops[v].state !in {Applied, RollbackPending} || db.ops[v].candidate.video != v then db
    else
      var op := db.ops[v];
      if !Intact(db, op) then db.(ops := db.ops[v := op.(state := RollbackConflict)])
      else if op.state == RollbackPending then db
      else
        db.(videos := db.videos[v := db.videos[v].(triple := op.before)],
            holds := Hold(db.holds, v, found),
            ops := db.ops[v := op.(state := RollbackPending)])
  }

  function HeldFor(holds: map<nat, nat>, v: nat): set<nat> {
    set j | j in holds && holds[j] == v
  }

  /** `_maintenance_guard`: the operation is under way and its row is intact. */
  predicate Guarded(db: Db, v: nat) {
    v in db.ops && db.ops[v].state in {Applied, RollbackPending} && db.ops[v].candidate.video == v && Intact(db, db.ops[v])
  }

  /** Rollback's second transaction: complete the held jobs that can be claimed; done when none is
      left.  A failing guard changes nothing. */
  function Retire(db: Db, v: nat, claimed: set<nat>): Db {
    if !Guarded(db, v) then db
    else
      var kept := map j | j in db.holds && !(db.holds[j] == v && j in claimed) :: db.holds[j];
      if HeldFor(kept, v) != {} then db.(holds := kept)
      else db.(holds := kept, ops := db.ops[v := db.ops[v].(state := RolledBack)])
  }

  // ---- runs ------------------------------------------------------------------------------------

  /** The loop reaches the second transaction only when the first has left the operation pending. */
  predicate Pending(db: Db, v: nat) {
    v in db.ops && db.ops[v].state == RollbackPending
  }

  /** One transaction, or an edit from outside.  A crash is a run that stops between two steps. */
  datatype Step =
    | DoStage(candidates: seq<Candidate>)
    | DoApply(v: nat, found: set<nat>, now: int)
    | DoRestore(v: nat, found: set<nat>)
    | DoRetire(v: nat, claimed: set<nat>)
    | Edit(v: nat, row: Option<Video>)

  function Apply(db: Db, step: Step): Db {
    match step
    case DoStage(candidates) => Stage(db, candidates)
    case DoApply(v, found, now) => ApplyOne(db, v, found, now)
    case DoRestore(v, found) => Restore(db, v, found)
    case DoRetire(v, claimed) => if Pending(db, v) then Retire(db, v, claimed) else db
    case Edit(v, row) =>
      if row.Some? then db.(videos := db.videos[v := row.value]) else db.(videos := map w | w in db.videos && w != v :: db.videos[w])
  }

  function After(db: Db, steps: seq<Step>): Db {
    if steps == [] then db else Apply(After(db, steps[..|steps| - 1]), steps[|steps| - 1])
  }

  const EMPTY := Db(map[], map[], map[], None)

  // ---- the loops -------------------------------------------------------------------------------

  datatype Count = AlreadyApplied | NotResumed | Judged(verdict: Verdict)

  /** What apply counts for one operation. */
  function CountOf(db: Db, v: nat): Count
    requires v in db.ops
  {
    match db.ops[v].state
    case Applied => AlreadyApplied
    case Staged => Judged(Judge(db, db.ops[v].candidate))
    case _ => NotResumed
  }

  /** What the job queue and the clock answer along a loop. */
  datatype World = World(found: map<nat, set<nat>>, claimed: map<nat, set<nat>>, now: map<nat, int>)

  function AnswerOf(m: map<nat, set<nat>>, v: nat): set<nat> {
    if v in m then m[v] else {}
  }

  function ClockOf(w: World, v: nat): int {
    if v in w.now then w.now[v] else 0
  }

  function ApplySteps(ids: seq<nat>, w: World): seq<Step> {
    seq(|ids|, i requires 0 <= i < |ids| => DoApply(ids[i], AnswerOf(w.found, ids[i]), ClockOf(w, ids[i])))
  }

  function Counts(db: Db, ids: seq<nat>, w: World): multiset<Count>
    requires forall v :: v in ids ==> v in db.ops
  {
    if ids == [] then multiset{}
    else
      var n := |ids| - 1;
      KeepsOps(db, ApplySteps(ids[..n], w), ids[n]);
      Counts(db, ids[..n], w) + multiset{CountOf(After(db, ApplySteps(ids[..n], w)), ids[n])}
  }

  lemma {:induction false} KeepsOps(db: Db, steps: seq<Step>, v: nat)
    requires v in db.ops
    ensures v in After(db, steps).ops && After(db, steps).ops[v].candidate == db.ops[v].candidate
  {
    if steps != [] {
      KeepsOps(db, steps[..|steps| - 1], v);
      var c := After(db, steps[..|steps| - 1]);
      if steps[|steps| - 1].DoStage? {
        InsertedKeeps(c.ops, steps[|steps| - 1].candidates, v);
      }
    }
  }

  lemma {:induction false} InsertedKeeps(ops: map<nat, Operation>, candidates: seq<Candidate>, v: nat)
    requires v in ops
    ensures v in Inserted(ops, candidates) && Inserted(ops, candidates)[v] == ops[v]
  {
    if candidates != [] {
      InsertedKeeps(ops, candidates[..|candidates| - 1], v);
    }
  }

  /** The two transactions of a rollback, operation by operation. */
  function RollbackSteps(ids: seq<nat>, w: World): seq<Step> {
    if ids == [] then []
    else
      var v := ids[|ids| - 1];
      RollbackSteps(ids[..|ids| - 1], w) + [DoRestore(v, AnswerOf(w.found, v)), DoRetire(v, AnswerOf(w.claimed, v))]
  }

  /** The service's tables, updated in place. */
  class Service {
    var videos: map<nat, Video>
    var ops: map<nat, Operation>
    var holds: map<nat, nat>
    var manifest: Option<set<Candidate>>

    ghost function State(): Db
      reads this
    {
      Db(videos, ops, holds, manifest)
    }

    constructor ()
      ensures State() == EMPTY
    {
      videos, ops, holds, manifest := map[], map[], map[], None;
    }

    /** `stage`. */
    method StageRun(candidates: seq<Candidate>) returns (accepted: bool)
      modifies this
      ensures accepted == StageAccepted(old(State()), candidates)
      ensures State() == Stage(old(State()), candidates)
    {
      accepted := false;
      if exists i, j :: 0 <= i < j < |candidates| && candidates[i].video == candidates[j].video {
        return;
      }
      if manifest.Some? && manifest.value != Targets(candidates) {
        return;
      }
      var inserted := ops;
      for i := 0 to |candidates|
        invariant inserted == Inserted(ops, candidates[..i])
        invariant forall k :: 0 <= k < i && candidates[k].video in ops ==> ops[candidates[k].video].candidate == candidates[k]
      {
        assert candidates[..i + 1][..i] == candidates[..i];
        var c := candidates[i];
        if c.video !in inserted {
          inserted := inserted[c.video := Operation(c, Staged, BLANK, BLANK)];
        }
        if c.video in ops && ops[c.video].candidate != c {
          return;
        }
      }
      assert candidates[..|candidates|] == candidates;
      ops, manifest, accepted := inserted, Some(Targets(candidates)), true;
    }

    /** Apply's transaction on one operation. */
    method ApplyOperation(v: nat, found: set<nat>, now: int) returns (verdict: Verdict)
      requires v in ops && ops[v].state == Staged && ops[v].candidate.video == v
      modifies `videos, `ops, `holds
      ensures verdict == Judge(old(State()), old(ops[v].candidate))
      ensures State() == ApplyOne(old(State()), v, found, now)
    {
      var op := ops[v];
      var c := op.candidate;
      if v !in videos || videos[v].identity != c.identity || !videos[v].eligible {
        verdict := Mismatch;
      } else if videos[v].triple.published == Some(c.published) {
        verdict := KnownSame;
      } else if videos[v].triple.published.Some? {
        verdict := KnownConflict;
      } else {
        verdict := Written;
      }
      if verdict != Written {
        ops := ops[v := op.(state := Skipped)];
        return;
      }
      var row := videos[v];
      videos := videos[v := row.(triple := Triple(Some(c.published), Some(c.observed), now))];
      holds := Hold(holds, v, found);
      ops := ops[v := op.(state := Applied, before := Triple(None, row.triple.observed, row.triple.updated), after := videos[v].triple)];
    }

    /** One turn of apply's loop: only staged operations are written. */
    method ApplyTurn(v: nat, found: set<nat>, now: int) returns (count: Count)
      requires v in ops && ops[v].candidate.video == v
      modifies `videos, `ops, `holds
      ensures State() == ApplyOne(old(State()), v, found, now) && count == CountOf(old(State()), v)
    {
      if ops[v].state == Applied {
        count := AlreadyApplied;
      } else if ops[v].state != Staged {
        count := NotResumed;
      } else {
        var verdict := ApplyOperation(v, found, now);
        count := Judged(verdict);
      }
    }

    /** `apply`: every operation of the run, in the order of its video id. */
    method ApplyRun(ids: seq<nat>, w: World) returns (counts: multiset<Count>)
      requires forall v :: v in ids ==> v in ops && ops[v].candidate.video == v
      modifies `videos, `ops, `holds
      ensures State() == After(old(State()), ApplySteps(ids, w))
      ensures counts == Counts(old(State()), ids, w)
    {
      counts := multiset{};
      ghost var before := State();
      for i := 0 to |ids|
        invariant State() == After(before, ApplySteps(ids[..i], w)) && counts == Counts(before, ids[..i], w)
        invariant Rooted(State(), ids)
      {
        var v := ids[i];
        ApplyLoop(before, ids, w, i);
        KeepsRoot(State(), DoApply(v, AnswerOf(w.found, v), ClockOf(w, v)), ids);
        var count := ApplyTurn(v, AnswerOf(w.found, v), ClockOf(w, v));
        counts := counts + multiset{count};
      }
      assert ids[..|ids|] == ids;
    }

    /** Rollback's first transaction; false when the row was changed from outside. */
    method RestoreOperation(v: nat, found: set<nat>) returns (valid: bool)
      requires v in ops && ops[v].state in {Applied, RollbackPending} && ops[v].candidate.video == v
      modifies `videos, `ops, `holds
      ensures valid == Intact(old(State()), old(ops[v]))
      ensures State() == Restore(old(State()), v, found)
    {
      var op := ops[v];
      var expected := if op.state == RollbackPending then op.before else op.after;
      valid := v in videos && videos[v].identity == op.candidate.identity && videos[v].eligible && videos[v].triple == expected;
      if !valid {
        ops := ops[v := op.(state := RollbackConflict)];
        return;
      }
      if op.state == Applied {
        videos := videos[v := videos[v].(triple := op.before)];
        holds := Hold(holds, v, found);
        ops := ops[v := op.(state := RollbackPending)];
      }
    }

    /** Rollback's second transaction; true when the operation is done. */
    method RetireOperation(v: nat, claimed: set<nat>) returns (done: bool)
      requires Guarded(State(), v)
      modifies `ops, `holds
      ensures State() == Retire(old(State()), v, claimed)
      ensures done == (v in ops && ops[v].state == RolledBack)
    {
      holds := map j | j in holds && !(holds[j] == v && j in claimed) :: holds[j];
      done := HeldFor(holds, v) == {};
      if done {
        ops := ops[v := ops[v].(state := RolledBack)];
      }
    }

    /** One turn of rollback's loop. */
    method RollbackTurn(v: nat, found: set<nat>, claimed: set<nat>)
      requires v in ops && ops[v].candidate.video == v
      modifies `videos, `ops, `holds
      ensures State() == Apply(Apply(old(State()), DoRestore(v, found)), DoRetire(v, claimed))
    {
      if ops[v].state != Applied && ops[v].state != RollbackPending {
        return;
      }
      var valid := RestoreOperation(v, found);
      if valid {
        var _ := RetireOperation(v, claimed);
      }
    }

    /** `rollback`: every operation of the run, in the reverse order. */
    method RollbackRun(ids: seq<nat>, w: World)
      requires forall v :: v in ids ==> v in ops && ops[v].candidate.video == v
      modifies `videos, `ops, `holds
      ensures State() == After(old(State()), RollbackSteps(ids, w))
    {
      ghost var before := State();
      for i := 0 to |ids|
        invariant State() == After(before, RollbackSteps(ids[..i], w))
        invariant Rooted(State(), ids)
      {
        var v := ids[i];
        var found, claimed := AnswerOf(w.found, v), AnswerOf(w.claimed, v);
        assert ids[..i + 1][..i] == ids[..i];
        TwoSteps(before, RollbackSteps(ids[..i], w), DoRestore(v, found), DoRetire(v, claimed));
        KeepsRoot(State(), DoRestore(v, found), ids);
        KeepsRoot(Restore(State(), v, found), DoRetire(v, claimed), ids);
        RollbackTurn(v, found, claimed);
      }
      assert ids[..|ids|] == ids;
    }
  }

  ghost predicate Rooted(db: Db, ids: seq<nat>) {
    forall v :: v in ids ==> v in db.ops && db.ops[v].candidate.video == v
  }

  lemma {:induction false} KeepsRoot(db: Db, step: Step, ids: seq<nat>)
    requires Rooted(db, ids)
    ensures Rooted(Apply(db, step), ids)
  {
    forall v | v in ids ensures v in Apply(db, step).ops && Apply(db, step).ops[v].candidate == db.ops[v].candidate {
      OneStep(db, step);
      KeepsOps(db, [step], v);
    }
  }

  lemma {:induction false} OneStep(db: Db, step: Step)
    ensures After(db, [step]) == Apply(db, step)
  {
    assert [step][..0] == [];
  }

  lemma {:induction false} ApplyLoop(db: Db, ids: seq<nat>, w: World, i: nat)
    requires i < |ids| && Rooted(db, ids)
    ensures var c, v := After(db, ApplySteps(ids[..i], w)), ids[i];
      && v in c.ops
      && After(db, ApplySteps(ids[..i + 1], w)) == ApplyOne(c, v, AnswerOf(w.found, v), ClockOf(w, v))
      && Counts(db, ids[..i + 1], w) == Counts(db, ids[..i], w) + multiset{CountOf(c, v)}
  {
    assert ids[..i + 1][..i] == ids[..i];
    KeepsOps(db, ApplySteps(ids[..i], w), ids[i]);
    var steps := ApplySteps(ids[..i + 1], w);
    assert steps[..i] == ApplySteps(ids[..i], w);
  }

  lemma {:induction false} Snoc(db: Db, steps: seq<Step>, a: Step)
    ensures After(db, steps + [a]) == Apply(After(db, steps), a)
  {
    assert (steps + [a])[..|steps|] == steps;
  }

  lemma {:induction false} TwoSteps(db: Db, steps: seq<Step>, a: Step, b: Step)
    ensures After(db, steps + [a, b]) == Apply(Apply(After(db, steps), a), b)
  {
    assert steps + [a, b] == steps + [a] + [b];
    Snoc(db, steps + [a], b);
    Snoc(db, steps, a);
  }
}
