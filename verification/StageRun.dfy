/** The leased transcript and summary stages of `src/shiliu/pipeline.py` as the program has them: one
    worker's code, with others and the outside acting between its transactions.  What it does to the
    shared state is a run of the step system. */
module StageRun {
  import opened Wrappers
  import opened Leases
  import opened StageDispatch

  datatype Answer = Answer(others: seq<Event>, o: Oracle)

  /** The event is not an action, a start or the death of worker `w`. */
  predicate Foreign(e: Event, w: nat) {
    match e
    case Spawn(x) => x != w
    case Crash(x) => x != w
    case Act(x, _) => x != w
    case _ => true
  }

  predicate AllForeign(es: seq<Event>, w: nat) {
    forall i :: 0 <= i < |es| ==> Foreign(es[i], w)
  }

  lemma {:induction false} OthersKeep(s: Sys, es: seq<Event>, w: nat)
    requires w in s.workers && AllForeign(es, w)
    ensures w in Run(s, es).workers && Run(s, es).workers[w] == s.workers[w]
    decreases |es|
  {
    if es != [] {
      assert Foreign(es[0], w);
      OthersKeep(Step(s, es[0]), es[1..], w);
    }
  }

  lemma {:induction false} RunsCompose(s: Sys, a: seq<Event>, b: seq<Event>)
    ensures Run(s, a + b) == Run(Run(s, a), b)
    decreases |a|
  {
    if a == [] {
      assert a + b == b;
    } else {
      assert (a + b)[1..] == a[1..] + b;
      RunsCompose(Step(s, a[0]), a[1..], b);
    }
  }

  lemma {:induction false} OneMore(s: Sys, a: seq<Event>, e: Event)
    ensures Run(s, a + [e]) == Step(Run(s, a), e)
  {
    RunsCompose(s, a, [e]);
    assert Run(Step(Run(s, a), e), [e][1..]) == Step(Run(s, a), e);
  }

  class Process {
    const w: nat
    const answers: nat -> Answer
    var world: Sys
    var asked: nat
    ghost const start: Sys
    ghost var trace: seq<Event>

    /** The shared state is a run of the step system, in which this worker stands at `pc`. */
    ghost predicate Tracks(pc: Pc)
      reads this
    {
      && world == Run(start, trace)
      && w in world.workers && world.workers[w].pc == pc && HasClaim(world.workers[w])
      && (forall n :: AllForeign(answers(n).others, w))
    }

    predicate Claimed()
      reads this
    {
      w in world.workers && world.workers[w].claim.Some?
    }

    constructor (world: Sys, w: nat, answers: nat -> Answer)
      requires w in world.workers && world.workers[w] == Worker(Claiming, None, None)
      requires forall n :: AllForeign(answers(n).others, w)
      ensures Tracks(Claiming) && this.w == w && this.start == world && trace == []
    {
      this.world, this.w, this.answers := world, w, answers;
      this.start, asked, trace := world, 0, [];
    }

    /** Others act; then the outside answers. */
    method Await(ghost pc: Pc) returns (o: Oracle)
      requires Tracks(pc)
      modifies this
      ensures Tracks(pc) && Claimed() == old(Claimed())
    {
      var a := answers(asked);
      OthersKeep(world, a.others, w);
      RunsCompose(start, trace, a.others);
      world, asked, trace := Run(world, a.others), asked + 1, trace + a.others;
      o := a.o;
    }

    /** The step's effect on the shared state, as the code works it out. */
    method Become(o: Oracle, pc: Pc, next: Pc, after: Sys)
      requires Tracks(pc) && WorkerStep(world, w, o) == after
      requires w in after.workers && after.workers[w].pc == next && HasClaim(after.workers[w])
      modifies this
      ensures Tracks(next) && world == after
    {
      OneMore(start, trace, Act(w, o));
      world := after;
      trace := trace + [Act(w, o)];
    }

    /** `update_stage(claim=...)`: commits under the lease, or raises and the worker leaves. */
    method Commit(o: Oracle, pc: Pc, stage: Stage, next: Pc) returns (ok: bool)
      requires Tracks(pc) && Claimed() && WorkerStep(world, w, o) == Guarded(world, w, stage, next)
      modifies this
      ensures Tracks(if ok then next else Releasing) && Claimed()
    {
      ok := Passes(world.stage.lease, world.workers[w].claim.value, world.now);
      if ok {
        Become(o, pc, next, At(world, w, next).(stage := stage));
      } else {
        Become(o, pc, Releasing, At(world, w, Releasing));
      }
    }

    /** `claim_stage`. */
    method ClaimRow() returns (claimed: bool)
      requires Tracks(Claiming)
      modifies this
      ensures if claimed then Tracks(ReadingInput) && Claimed() else Tracks(Ended)
    {
      var o := Await(Claiming);
      var stage := world.stage;
      claimed := false;
      if Busy(stage.lease, world.now) || stage.status == Completed || (stage.retryAt.Some? && stage.retryAt.value > world.now) {
        Become(o, Claiming, Ended, At(world, w, Ended));
      } else if stage.status == Processing {
        Become(o, Claiming, Ended, At(world, w, Ended).(stage := stage.(status := NeedsReview, lease := Revoked(stage.lease))));
      } else if stage.status == NeedsReview {
        Become(o, Claiming, Ended, At(world, w, Ended));
      } else {
        var lease := Taken(stage.lease, w, world.now, LEASE_SECONDS);
        Become(o, Claiming, ReadingInput,
               world.(stage := stage.(lease := lease), workers := world.workers[w := Worker(ReadingInput, Some(Claim(w, lease.epoch)), None)]));
        claimed := true;
      }
    }

    /** The stage body: read, commit "processing" with one more attempt, then call the model. */
    method RunClaimed()
      requires Tracks(Reading) && Claimed()
      modifies this
      ensures Tracks(Releasing) && Claimed()
    {
      var o := Await(Reading);
      if world.stage.status == Completed || world.stage.status == NeedsReview || !o.yes || !o.ok {
        Become(o, Reading, Releasing, At(world, w, Releasing));
        return;
      }
      var seen := world.stage.attempts;
      Become(o, Reading, DispatchCommit(seen), At(world, w, DispatchCommit(seen)));
      var attempt := seen + 1;
      o := Await(DispatchCommit(seen));
      if !Passes(world.stage.lease, world.workers[w].claim.value, world.now) {
        Become(o, DispatchCommit(seen), Releasing, At(world, w, Releasing));
        return;
      }
      Become(o, DispatchCommit(seen), ProviderCommit(attempt),
             At(world, w, ProviderCommit(attempt)).(stage := world.stage.(status := Processing, attempts := attempt, retryAt := None),
                                                    dispatched := world.dispatched + [w], sinceReset := world.sinceReset + 1));
      CallModel(attempt);
    }

    /** From the dispatch on: the provider, the call, and its result or its failure. */
    method CallModel(attempt: nat)
      requires Tracks(ProviderCommit(attempt)) && Claimed()
      modifies this
      ensures Tracks(Releasing) && Claimed()
    {
      var o := Await(ProviderCommit(attempt));
      if !o.ok {
        Become(o, ProviderCommit(attempt), if o.pipelineError then FailWrite(attempt, o.retryable) else Releasing,
               At(world, w, if o.pipelineError then FailWrite(attempt, o.retryable) else Releasing));
        if o.pipelineError {
          RecordFailure(attempt, o.retryable);
        }
        return;
      }
      var ok := Commit(o, ProviderCommit(attempt), world.stage, ModelCall(attempt));
      if !ok {
        return;
      }
      var answer := Await(ModelCall(attempt));
      var next := if answer.ok then Publish(attempt) else if answer.pipelineError then FailWrite(attempt, answer.retryable) else Releasing;
      Become(answer, ModelCall(attempt), next, At(world, w, next).(called := world.called + [w]));
      if answer.ok {
        o := Await(Publish(attempt));
        if world.raw == world.workers[w].input {
          var _ := Commit(o, Publish(attempt), world.stage.(status := Completed), Releasing);
        } else {
          Become(o, Publish(attempt), Releasing, At(world, w, Releasing));
        }
      } else if answer.pipelineError {
        RecordFailure(attempt, answer.retryable);
      }
    }

    /** `_record_stage_failure`. */
    method RecordFailure(attempt: nat, retryable: bool)
      requires Tracks(FailWrite(attempt, retryable)) && Claimed()
      modifies this
      ensures Tracks(Releasing) && Claimed()
    {
      var o := Await(FailWrite(attempt, retryable));
      var again := retryable && attempt < 3;
      var _ := Commit(o, FailWrite(attempt, retryable),
                      world.stage.(status := if again then RetryWait else NeedsReview, retryAt := if again then Some(o.at) else None), Releasing);
    }

    /** `leased_stage`: claim, run, release.  Whatever happens in between, the effect on the shared
        state is a run of the step system. */
    method Execute()
      requires Tracks(Claiming)
      modifies this
      ensures Tracks(Ended) && world == Run(start, trace)
    {
      var claimed := ClaimRow();
      if !claimed {
        return;
      }
      var o := Await(ReadingInput);
      Become(o, ReadingInput, Reading, world.(workers := world.workers[w := world.workers[w].(pc := Reading, input := world.raw)]));
      RunClaimed();
      o := Await(Releasing);
      if Passes(world.stage.lease, world.workers[w].claim.value, world.now) {
        Become(o, Releasing, Ended, At(world, w, Ended).(stage := world.stage.(lease := Freed(world.stage.lease))));
      } else {
        Become(o, Releasing, Ended, At(world, w, Ended));
      }
    }
  }
}
