/** What every run of backfill transactions keeps, with edits from outside and crashes between any
    two transactions. */
module BackfillSafety {
  import opened Wrappers
  import opened Backfill

  /** An operation that was applied has recorded the triple it replaced and the one it wrote. */
  ghost predicate Recorded(op: Operation) {
    op.state in {Applied, RollbackPending, RolledBack, RollbackConflict} ==>
      op.before.published == None && op.after.published == Some(op.candidate.published) && op.after.observed == Some(op.candidate.observed)
  }

  ghost predicate Inv(db: Db) {
    && (forall v :: v in db.ops ==> db.ops[v].candidate.video == v && Recorded(db.ops[v]))
    && (forall v :: v in db.ops && db.ops[v].state in {Staged, Skipped, RolledBack} ==> HeldFor(db.holds, v) == {})
    && (forall j :: j in db.holds ==> db.holds[j] in db.ops)
  }

  lemma {:induction false} InsertedIs(ops: map<nat, Operation>, candidates: seq<Candidate>)
    ensures forall v :: v in Inserted(ops, candidates) && v !in ops ==>
      Inserted(ops, candidates)[v].candidate.video == v && Inserted(ops, candidates)[v].state == Staged
    ensures forall v :: v in ops ==> v in Inserted(ops, candidates) && Inserted(ops, candidates)[v] == ops[v]
  {
    if candidates != [] {
      InsertedIs(ops, candidates[..|candidates| - 1]);
    }
  }

  lemma {:induction false} StageKeeps(db: Db, candidates: seq<Candidate>)
    requires Inv(db)
    ensures Inv(Stage(db, candidates))
  {
    InsertedIs(db.ops, candidates);
    var d := Stage(db, candidates);
    forall v | v in d.ops && v !in db.ops ensures HeldFor(d.holds, v) == {} {
    }
  }

  lemma {:induction false} HoldKeeps(db: Db, v: nat, found: set<nat>, w: nat)
    requires v != w
    ensures HeldFor(Hold(db.holds, v, found), w) == HeldFor(db.holds, w)
  {
  }

  lemma {:induction false} ApplyOneKeeps(db: Db, v: nat, found: set<nat>, now: int)
    requires Inv(db)
    ensures Inv(ApplyOne(db, v, found, now))
  {
    var d := ApplyOne(db, v, found, now);
    forall w | w in d.ops && d.ops[w].state in {Staged, Skipped, RolledBack} ensures HeldFor(d.holds, w) == {} {
      if w != v {
        HoldKeeps(db, v, found, w);
      }
    }
  }

  lemma {:induction false} RestoreKeeps(db: Db, v: nat, found: set<nat>)
    requires Inv(db)
    ensures Inv(Restore(db, v, found))
  {
    var d := Restore(db, v, found);
    forall w | w in d.ops && d.ops[w].state in {Staged, Skipped, RolledBack} ensures HeldFor(d.holds, w) == {} {
      if w != v {
        HoldKeeps(db, v, found, w);
      }
    }
  }

  lemma {:induction false} RetireKeeps(db: Db, v: nat, claimed: set<nat>)
    requires Inv(db)
    ensures Inv(Retire(db, v, claimed))
  {
    var d := Retire(db, v, claimed);
    forall w | w in d.ops && d.ops[w].state in {Staged, Skipped, RolledBack} ensures HeldFor(d.holds, w) == {} {
      assert forall j :: j in d.holds ==> j in db.holds && d.holds[j] == db.holds[j];
      if w != v {
        assert HeldFor(d.holds, w) <= HeldFor(db.holds, w);
      }
    }
  }

  lemma {:induction false} RunKeeps(steps: seq<Step>)
    ensures Inv(After(EMPTY, steps))
  {
    if steps != [] {
      var c := After(EMPTY, steps[..|steps| - 1]);
      RunKeeps(steps[..|steps| - 1]);
      match steps[|steps| - 1]
      case DoStage(candidates) => StageKeeps(c, candidates);
      case DoApply(v, found, now) => ApplyOneKeeps(c, v, found, now);
      case DoRestore(v, found) => RestoreKeeps(c, v, found);
      case DoRetire(v, claimed) => RetireKeeps(c, v, claimed);
      case Edit(v, row) =>
    }
  }

  /** In every run an operation that is rolled back leaves no held job of its video behind. */
  lemma {:induction false} RolledBackIsClean(steps: seq<Step>, v: nat)
    ensures var db := After(EMPTY, steps);
      v in db.ops && db.ops[v].state == RolledBack ==> forall j :: j in db.holds ==> db.holds[j] != v
  {
    RunKeeps(steps);
    var db := After(EMPTY, steps);
    if v in db.ops && db.ops[v].state == RolledBack {
      forall j | j in db.holds ensures db.holds[j] != v {
        assert j in HeldFor(db.holds, db.holds[j]);
      }
    }
  }

  /** The service rewrites a video row in two cases only: apply fills in a publication time that was
      not known, recording the old and the new triple; rollback puts the old triple back over a row
      that still equals the recorded new one.  Nothing else of the row changes, and no known time is
      ever overwritten by apply. */
  lemma {:induction false} OnlyTheseWrites(steps: seq<Step>, step: Step, w: nat)
    requires !step.Edit?
    ensures var db, d := After(EMPTY, steps), Apply(After(EMPTY, steps), step);
      && d.videos.Keys == db.videos.Keys
      && (w in db.videos && d.videos[w] != db.videos[w] ==>
            && w in db.ops && d.videos[w] == db.videos[w].(triple := d.videos[w].triple)
            && db.ops[w].candidate.video == w && db.videos[w].identity == db.ops[w].candidate.identity && db.videos[w].eligible
            && ((step.DoApply? && db.ops[w].state == Staged && db.videos[w].triple.published == None &&
                 d.ops[w].before == db.videos[w].triple && d.ops[w].after == d.videos[w].triple &&
                 d.videos[w].triple.published == Some(db.ops[w].candidate.published))
                || (step.DoRestore? && db.ops[w].state == Applied && db.videos[w].triple == db.ops[w].after &&
                    d.videos[w].triple == db.ops[w].before && d.videos[w].triple.published == None)))
  {
    RunKeeps(steps);
  }

  /** Apply writes a staged operation exactly when its row is there, is the video the candidate was made
      for, is in scope and has no publication time; otherwise the operation is skipped and no row and
      no job is touched. */
  lemma {:induction false} AppliesIff(db: Db, v: nat, found: set<nat>, now: int)
    requires v in db.ops && db.ops[v].state == Staged && db.ops[v].candidate.video == v
    ensures var d, c := Apply(db, DoApply(v, found, now)), db.ops[v].candidate;
      var open := v in db.videos && db.videos[v].identity == c.identity && db.videos[v].eligible && db.videos[v].triple.published.None?;
      && (d.ops[v].state == Applied <==> open)
      && (open ==> d.videos == db.videos[v := db.videos[v].(triple := Triple(Some(c.published), Some(c.observed), now))] &&
                   (forall j :: j in found && j !in db.holds ==> j in d.holds && d.holds[j] == v))
      && (!open ==> d.ops[v].state == Skipped && d.videos == db.videos && d.holds == db.holds)
  {
  }

  /** Rollback leaves a row that was changed from outside alone and marks the conflict: the operation
      goes on to be rolled back if and only if the row still is what the operation recorded. */
  lemma {:induction false} RollbackComparesFirst(db: Db, v: nat, found: set<nat>)
    requires v in db.ops && db.ops[v].state in {Applied, RollbackPending} && db.ops[v].candidate.video == v
    ensures var d := Restore(db, v, found);
      && (d.ops[v].state == RollbackPending <==> Intact(db, db.ops[v]))
      && (!Intact(db, db.ops[v]) ==> d.ops[v].state == RollbackConflict && d.videos == db.videos && d.holds == db.holds)
  {
  }

  /** An operation that becomes rolled back leaves its row at the old triple. */
  lemma {:induction false} RolledBackIsRestored(db: Db, v: nat, claimed: set<nat>)
    requires Pending(db, v)
    ensures var d := Apply(db, DoRetire(v, claimed));
      d.ops[v].state == RolledBack ==> v in d.videos && d.videos[v].triple == d.ops[v].before
  {
  }

  // ---- apply, then rollback --------------------------------------------------------------------

  /** A step that neither edits the row from outside nor begins its rollback. */
  predicate Leaves(step: Step, v: nat) {
    !(step.DoRestore? && step.v == v) && !(step.Edit? && step.v == v)
  }

  lemma {:induction false} AppliedStays(db: Db, steps: seq<Step>, v: nat)
    requires v in db.ops && db.ops[v].state == Applied && v in db.videos
    requires forall n :: 0 <= n < |steps| ==> Leaves(steps[n], v)
    ensures var d := After(db, steps); v in d.ops && d.ops[v] == db.ops[v] && v in d.videos && d.videos[v] == db.videos[v]
  {
    if steps != [] {
      var n := |steps| - 1;
      var init := steps[..n];
      assert forall m :: 0 <= m < n ==> init[m] == steps[m];
      AppliedStays(db, init, v);
      var c := After(db, init);
      assert Leaves(steps[n], v);
      if steps[n].DoStage? {
        InsertedIs(c.ops, steps[n].candidates);
      }
    }
  }

  /** Apply, then whatever else happens that leaves this row alone, then rollback: the row is again
      exactly what it was. */
  lemma {:induction false} ApplyThenRollback(db: Db, v: nat, found: set<nat>, now: int, steps: seq<Step>, later: set<nat>)
    requires v in db.ops && db.ops[v].state == Staged && db.ops[v].candidate.video == v
    requires Judge(db, db.ops[v].candidate) == Verdict.Written
    requires forall n :: 0 <= n < |steps| ==> Leaves(steps[n], v)
    ensures var d := Restore(After(ApplyOne(db, v, found, now), steps), v, later);
      && v in d.videos && d.videos[v] == db.videos[v] && v in d.ops && d.ops[v].state == RollbackPending
  {
    var a := ApplyOne(db, v, found, now);
    AppliedStays(a, steps, v);
    assert db.videos[v].triple.(published := None) == db.videos[v].triple;
  }

  // ---- progress of one operation ---------------------------------------------------------------

  function Rank(s: State): nat {
    match s
    case Staged => 0
    case Applied => 1
    case RollbackPending => 2
    case _ => 3
  }

  /** No step takes an operation back: skipped, rolled back and conflicted operations are final, and
      a pending rollback is never applied again. */
  lemma {:induction false} StatesOnlyAdvance(db: Db, step: Step, v: nat)
    requires v in db.ops
    ensures var d := Apply(db, step);
      && v in d.ops && d.ops[v].candidate == db.ops[v].candidate
      && (d.ops[v].state == db.ops[v].state || Rank(d.ops[v].state) > Rank(db.ops[v].state))
  {
    if step.DoStage? {
      InsertedIs(db.ops, step.candidates);
    }
  }

  /** Staging the same candidates again changes nothing, whatever the operations have become. */
  lemma {:induction false} StageIsIdempotent(db: Db, candidates: seq<Candidate>)
    ensures Stage(Stage(db, candidates), candidates) == Stage(db, candidates)
    ensures forall v :: v in db.ops ==> v in Stage(db, candidates).ops && Stage(db, candidates).ops[v] == db.ops[v]
  {
    InsertedIs(db.ops, candidates);
    if StageAccepted(db, candidates) {
      var d := Stage(db, candidates);
      InsertedAll(db.ops, candidates);
      AllThere(d.ops, candidates);
    }
  }

  lemma {:induction false} InsertedAll(ops: map<nat, Operation>, candidates: seq<Candidate>)
    ensures forall c :: c in candidates ==> c.video in Inserted(ops, candidates)
  {
    if candidates != [] {
      InsertedAll(ops, candidates[..|candidates| - 1]);
      assert candidates == candidates[..|candidates| - 1] + [candidates[|candidates| - 1]];
    }
  }

  lemma {:induction false} AllThere(ops: map<nat, Operation>, candidates: seq<Candidate>)
    requires forall c :: c in candidates ==> c.video in ops
    ensures Inserted(ops, candidates) == ops
  {
    if candidates != [] {
      assert candidates[|candidates| - 1] in candidates;
      AllThere(ops, candidates[..|candidates| - 1]);
    }
  }
}
