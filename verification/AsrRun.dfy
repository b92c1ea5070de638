/** `ASRService.acquire` as the program has it: one worker's straight-line code, with the other
    workers, the clock and the provider acting between any two of its transactions.  It is proved to
    follow the step system: what it does to the shared state is a run of that system. */
module AsrRun {
  import opened Wrappers
  import opened Leases
  import opened AsrDispatch
  import AsrSafety

  /** What happens before one action of the worker, and what the outside answers to it. */
  datatype Answer = Answer(others: seq<Event>, o: Oracle)

  predicate AllForeign(es: seq<Event>, w: nat) {
    forall i :: 0 <= i < |es| ==> AsrSafety.Foreign(es[i], w)
  }

  lemma {:induction false} OthersKeep(s: Sys, es: seq<Event>, w: nat)
    requires w in s.workers && AllForeign(es, w)
    ensures w in Run(s, es, true).workers && Run(s, es, true).workers[w] == s.workers[w]
    decreases |es|
  {
    if es != [] {
      AsrSafety.StepKeepsOther(s, es[0], w);
      OthersKeep(Step(s, es[0], true), es[1..], w);
    }
  }

  lemma {:induction false} OneMore(s: Sys, a: seq<Event>, e: Event)
    ensures Run(s, a + [e], true) == Step(Run(s, a, true), e, true)
  {
    AsrSafety.RunAppend(s, a, [e], true);
    assert Run(Step(Run(s, a, true), e, true), [e][1..], true) == Step(Run(s, a, true), e, true);
  }

  /** How a part of the code ended. */
  datatype Flow = Next(l: Local) | Leave | Caught(l: Local, retryable: bool, code: Code)

  class Process {
    const w: nat
    const manual: bool
    const answers: nat -> Answer
    var world: Sys
    var asked: nat
    ghost const start: Sys
    ghost var trace: seq<Event>

    /** The shared state is a run of the step system, in which this worker stands at `pc`. */
    ghost predicate Tracks(pc: Pc)
      reads this
    {
      && world == Run(start, trace, true)
      && w in world.workers && world.workers[w].manual == manual && world.workers[w].pc == pc && HasClaim(world.workers[w])
      && (forall n :: AllForeign(answers(n).others, w))
    }

    predicate Claimed()
      reads this
    {
      w in world.workers && world.workers[w].claim.Some?
    }

    /** A worker that has just been started. */
    constructor (world: Sys, w: nat, manual: bool, answers: nat -> Answer)
      requires w in world.workers && world.workers[w] == Worker(manual, Start, None)
      requires forall n :: AllForeign(answers(n).others, w)
      ensures Tracks(Start) && this.w == w && this.manual == manual && this.start == world && trace == []
    {
      this.world, this.w, this.manual, this.answers := world, w, manual, answers;
      this.start, asked, trace := world, 0, [];
    }

    /** Others act; then the outside answers. */
    method Await(ghost pc: Pc) returns (o: Oracle)
      requires Tracks(pc)
      modifies this
      ensures Tracks(pc)
    {
      var a := answers(asked);
      OthersKeep(world, a.others, w);
      AsrSafety.RunAppend(start, trace, a.others, true);
      world, asked, trace := Run(world, a.others, true), asked + 1, trace + a.others;
      o := a.o;
    }

    /** A step that only moves this worker on. */
    method Go(o: Oracle, pc: Pc, next: Pc)
      requires Tracks(pc) && WorkerStep(world, w, o) == At(world, w, next)
      requires next.Start? || next.Reset? || next.Claiming? || next.Ended? || next.Dead? || world.workers[w].claim.Some?
      modifies this
      ensures Tracks(next) && world.job == old(world.job) && world.workers[w].claim == old(world.workers[w].claim)
    {
      OneMore(start, trace, Act(w, o));
      world := At(world, w, next);
      trace := trace + [Act(w, o)];
    }

    /** `update_asr_job(claim=...)`: commits under the lease, or raises and the worker leaves. */
    method Commit(o: Oracle, pc: Pc, job: Job, next: Pc) returns (ok: bool)
      requires Tracks(pc) && world.workers[w].claim.Some? && WorkerStep(world, w, o) == Guarded(world, w, job, next)
      modifies this
      ensures Tracks(if ok then next else Releasing) && world.workers[w].claim == old(world.workers[w].claim)
    {
      ok := Passes(world.job.lease, world.workers[w].claim.value, world.now);
      if ok {
        Become(o, pc, next, At(world, w, next).(job := job));
      } else {
        Become(o, pc, Releasing, At(world, w, Releasing));
      }
    }

    /** The step's whole effect on the shared state is given by the caller. */
    method Become(o: Oracle, pc: Pc, next: Pc, after: Sys)
      requires Tracks(pc) && WorkerStep(world, w, o) == after
      requires w in after.workers && after.workers[w].manual == manual && after.workers[w].pc == next && HasClaim(after.workers[w])
      modifies this
      ensures Tracks(next) && world == after
    {
      OneMore(start, trace, Act(w, o));
      world := after;
      trace := trace + [Act(w, o)];
    }

    /** `acquire`, up to the claim. */
    method ClaimJob() returns (claimed: bool)
      requires Tracks(Start)
      modifies this
      ensures if claimed then Tracks(Reading) && Claimed() else Tracks(Ended)
    {
      var o := Await(Start);
      if world.job.status == Completed && o.raw.Some? {
        Go(o, Start, Ended);
        return false;
      }
      if world.job.status == NeedsReview {
        if UnknownOutcome(world.job.code) || !manual {
          Go(o, Start, Ended);
          return false;
        }
        Go(o, Start, Reset);
        o := Await(Reset);
        if world.job.lease.owner.Some? {
          Go(o, Reset, Ended);
          return false;
        }
        Become(o, Reset, Claiming,
               At(world, w, Claiming).(job := world.job.(status := Pending, attempts := 0, retryAt := None, code := None)));
      } else {
        Go(o, Start, Claiming);
      }
      claimed := ClaimRow();
    }

    /** `claim_asr`: `_claim` in one transaction. */
    method ClaimRow() returns (claimed: bool)
      requires Tracks(Claiming)
      modifies this
      ensures if claimed then Tracks(Reading) && Claimed() else Tracks(Ended)
    {
      var o := Await(Claiming);
      var job := world.job;
      claimed := false;
      if Busy(job.lease, world.now) || job.status == Completed || (job.retryAt.Some? && job.retryAt.value > world.now) {
        Go(o, Claiming, Ended);
      } else if job.task.None? && (job.status == Submitted || job.status == Processing) {
        Become(o, Claiming, Ended,
               At(world, w, Ended).(job := job.(status := NeedsReview, code := Some(ExternalResultUnknown), lease := Revoked(job.lease))));
      } else if job.status == NeedsReview {
        Go(o, Claiming, Ended);
      } else {
        var lease := Taken(job.lease, w, world.now, LEASE_SECONDS);
        Become(o, Claiming, Reading,
               world.(job := job.(lease := lease), workers := world.workers[w := Worker(manual, Reading, Some(Claim(w, lease.epoch)))]));
        claimed := true;
      }
    }

    /** `_acquire_claimed`: read the job again under the claim, and decide whether to go on. */
    method ReadJob() returns (flow: Flow)
      requires Tracks(Reading) && world.workers[w].claim.Some?
      modifies this
      ensures !flow.Caught? && Claimed()
      ensures Tracks(if flow.Next? then SetTrigger(flow.l) else Releasing)
    {
      var o := Await(Reading);
      var raw := world.raw;
      Go(o, Reading, ReadingJob(raw));
      o := Await(ReadingJob(raw));
      var l := Local(world.job.task, world.job.url, world.job.attempts, world.job.manual, raw);
      if world.job.status == Completed && raw.Some? {
        Go(o, ReadingJob(raw), Releasing);
        return Leave;
      }
      if world.job.status == NeedsReview {
        if !manual {
          Go(o, ReadingJob(raw), Releasing);
          return Leave;
        }
        Go(o, ReadingJob(raw), ClaimedReset(l));
        var o2 := Await(ClaimedReset(l));
        var ok := Commit(o2, ClaimedReset(l), world.job.(status := Pending, attempts := 0, retryAt := None, code := None, manual := true),
                         SetTrigger(l.(attempts := 0, manual := true)));
        return if ok then Next(l.(attempts := 0, manual := true)) else Leave;
      }
      if world.job.status == RetryWait && !o.yes {
        Go(o, ReadingJob(raw), Releasing);
        return Leave;
      }
      Go(o, ReadingJob(raw), SetTrigger(l));
      flow := Next(l);
    }

    /** Record a manual trigger and find the audio input. */
    method FindInput(l: Local) returns (flow: Flow, audio: bool)
      requires Tracks(SetTrigger(l)) && world.workers[w].claim.Some?
      modifies this
      ensures Claimed()
      ensures Tracks(match flow case Next(l') => AfterTrigger(l', audio) case Leave => Releasing case Caught(l', r, c) => FailRead(l', r, c))
    {
      var o := Await(SetTrigger(l));
      var l' := l.(manual := l.manual || manual);
      var raises := l.task.None? && !o.ok;
      audio := o.yes;
      flow := if raises then Caught(l', o.retryable, o.code) else Next(l');
      var next := if raises then FailRead(l', o.retryable, o.code) else AfterTrigger(l', audio);
      if manual && !l.manual {
        var ok := Commit(o, SetTrigger(l), world.job.(manual := true), next);
        if !ok {
          flow := Leave;
        }
      } else {
        Go(o, SetTrigger(l), next);
      }
    }

    /** Download the audio; None when the next step is the upload. */
    method DownloadAudio(l: Local) returns (over: Option<Flow>)
      requires Tracks(DownloadCommit(l)) && Claimed()
      modifies this
      ensures Claimed() && (over.Some? ==> !over.value.Next?)
      ensures Tracks(match over case None => UploadCommit(l) case Some(Caught(l', r, c)) => FailRead(l', r, c) case Some(_) => Releasing)
    {
      var o := Await(DownloadCommit(l));
      var next := if o.ok then UploadCommit(l) else if o.pipelineError then FailRead(l, o.retryable, o.code) else Releasing;
      var ok := Commit(o, DownloadCommit(l), world.job.(status := Downloading), next);
      if !ok || next == Releasing {
        return Some(Leave);
      }
      over := if o.ok then None else Some(Caught(l, o.retryable, o.code));
    }

    /** Upload the audio and record where it is. */
    method UploadFile(l: Local) returns (flow: Flow)
      requires Tracks(UploadCommit(l)) && Claimed()
      modifies this
      ensures Claimed()
      ensures Tracks(match flow case Next(l') => DispatchCommit(l') case Leave => Releasing case Caught(l', r, c) => FailRead(l', r, c))
    {
      hide Run, AllForeign;
      var o := Await(UploadCommit(l));
      var ok := Commit(o, UploadCommit(l), world.job.(status := Uploading), UploadCall(l));
      if !ok {
        return Leave;
      }
      o := Await(UploadCall(l));
      if !o.ok {
        Go(o, UploadCall(l), if o.pipelineError then FailRead(l, o.retryable, o.code) else Releasing);
        return if o.pipelineError then Caught(l, o.retryable, o.code) else Leave;
      }
      var url := o.id;
      Go(o, UploadCall(l), UrlCommit(l, url));
      o := Await(UrlCommit(l, url));
      ok := Commit(o, UrlCommit(l, url), world.job.(url := Some(url)), DispatchCommit(l.(url := Some(url))));
      flow := if ok then Next(l.(url := Some(url))) else Leave;
    }

    /** Download and upload the audio, unless an upload is known already. */
    method UploadAudio(l: Local, audio: bool) returns (flow: Flow)
      requires Tracks(AfterTrigger(l, audio)) && l.task.None? && Claimed()
      modifies this
      ensures Claimed()
      ensures Tracks(match flow case Next(l') => DispatchCommit(l') case Leave => Releasing case Caught(l', r, c) => FailRead(l', r, c))
    {
      if l.url.Some? {
        return Next(l);
      }
      if !audio {
        var over := DownloadAudio(l);
        if over.Some? {
          return over.value;
        }
      }
      flow := UploadFile(l);
    }

    /** Commit the possibility of a dispatch, send the request, commit the task id. */
    method Submit(l: Local) returns (flow: Flow)
      requires Tracks(DispatchCommit(l)) && world.workers[w].claim.Some?
      modifies this
      ensures Claimed()
      ensures Tracks(match flow case Next(l') => Poll(l') case Leave => Releasing case Caught(l', r, c) => FailRead(l', r, c))
    {
      var o := Await(DispatchCommit(l));
      if !Passes(world.job.lease, world.workers[w].claim.value, world.now) {
        Become(o, DispatchCommit(l), Releasing, At(world, w, Releasing));
        return Leave;
      }
      Become(o, DispatchCommit(l), SubmitCall(l),
             At(world, w, SubmitCall(l)).(job := world.job.(status := Submitted, code := Some(ExternalResultUnknown)), first := Some(w)));
      var o2 := Await(SubmitCall(l));
      var next := if o2.ok then TaskCommit(l, o2.id) else if o2.pipelineError then FailRead(l, o2.retryable, o2.code) else Releasing;
      Become(o2, SubmitCall(l), next, At(world, w, next).(submits := world.submits + 1));
      if !o2.ok {
        return if o2.pipelineError then Caught(l, o2.retryable, o2.code) else Leave;
      }
      var o3 := Await(TaskCommit(l, o2.id));
      var ok := Commit(o3, TaskCommit(l, o2.id), world.job.(status := Submitted, task := Some(o2.id), code := None),
                       Poll(l.(task := Some(o2.id))));
      flow := if ok then Next(l.(task := Some(o2.id))) else Leave;
    }

    /** `_complete`: validate and publish in one transaction. */
    method Complete(l: Local) returns (flow: Flow)
      requires Tracks(Publish(l)) && world.workers[w].claim.Some?
      modifies this
      ensures !flow.Next? && Claimed()
      ensures Tracks(if flow.Caught? then FailRead(flow.l, flow.retryable, flow.code) else Releasing)
    {
      var o := Await(Publish(l));
      if !o.ok {
        Go(o, Publish(l), if o.pipelineError then FailRead(l, o.retryable, o.code) else Releasing);
        return if o.pipelineError then Caught(l, o.retryable, o.code) else Leave;
      }
      if world.raw == l.raw && Passes(world.job.lease, world.workers[w].claim.value, world.now) {
        Become(o, Publish(l), Releasing,
               At(world, w, Releasing).(job := world.job.(status := Completed, retryAt := None, code := None), raw := Some(o.id)));
      } else {
        Go(o, Publish(l), Releasing);
      }
      flow := Leave;
    }

    /** The polling loop; `fuel` bounds how often the monotonic deadline can still lie ahead. */
    method PollResult(l: Local, fuel: nat) returns (flow: Flow)
      requires Tracks(Poll(l)) && world.workers[w].claim.Some?
      modifies this
      ensures Claimed()
      ensures Tracks(match flow case Next(l') => Poll(l') case Leave => Releasing case Caught(l', r, c) => FailRead(l', r, c))
    {
      hide Run, AllForeign;
      var left := fuel;
      while left > 0
        invariant Tracks(Poll(l)) && world.workers[w].claim.Some?
      {
        left := left - 1;
        var o := Await(Poll(l));
        if !o.ok {
          Go(o, Poll(l), if o.pipelineError then FailRead(l, o.retryable, o.code) else Releasing);
          return if o.pipelineError then Caught(l, o.retryable, o.code) else Leave;
        }
        if o.yes {
          Go(o, Poll(l), Publish(l));
          flow := Complete(l);
          return;
        }
        Go(o, Poll(l), PollCommit(l));
        var o2 := Await(PollCommit(l));
        var ok := Commit(o2, PollCommit(l), world.job.(status := Processing), if o2.yes then Poll(l) else Releasing);
        if !ok || !o2.yes {
          return Leave;
        }
      }
      flow := Next(l);
    }

    /** `_record_failure`. */
    method RecordFailure(l: Local, retryable: bool, code: Code)
      requires Tracks(FailRead(l, retryable, code)) && world.workers[w].claim.Some?
      modifies this
      ensures Tracks(Releasing) && Claimed()
    {
      hide Run, AllForeign;
      var o := Await(FailRead(l, retryable, code));
      var attempt := l.attempts + 1;
      var final := !retryable || attempt >= 3;
      var status, retryAt, why := if final then NeedsReview else RetryWait, if final then None else Some(o.at), code;
      if world.job.task.None? && world.job.status == Submitted {
        status, retryAt, why := NeedsReview, None, SubmitUnknown;
      }
      Go(o, FailRead(l, retryable, code), FailWrite(status, attempt, retryAt, why));
      WriteFailure(status, attempt, retryAt, why);
    }

    /** The transaction that records it. */
    method WriteFailure(status: Status, attempt: nat, retryAt: Option<int>, why: Code)
      requires Tracks(FailWrite(status, attempt, retryAt, why)) && Claimed()
      modifies this
      ensures Tracks(Releasing) && Claimed()
    {
      hide Run, AllForeign;
      var o := Await(FailWrite(status, attempt, retryAt, why));
      var _ := Commit(o, FailWrite(status, attempt, retryAt, why),
                      world.job.(status := status, attempts := attempt, retryAt := retryAt, code := Some(why)), Releasing);
    }

    /** `release`, at the end of the lease's block. */
    method Release()
      requires Tracks(Releasing) && world.workers[w].claim.Some?
      modifies this
      ensures Tracks(Ended)
    {
      var o := Await(Releasing);
      if Passes(world.job.lease, world.workers[w].claim.value, world.now) {
        Become(o, Releasing, Ended, At(world, w, Ended).(job := world.job.(lease := Freed(world.job.lease))));
      } else {
        Go(o, Releasing, Ended);
      }
    }

    /** `_acquire_claimed`: everything between the claim and the release. */
    method AcquireClaimed(fuel: nat) returns (finished: bool)
      requires Tracks(Reading) && world.workers[w].claim.Some?
      modifies this
      ensures Claimed() && (finished ==> Tracks(Releasing))
      ensures !finished ==> exists l :: Tracks(Poll(l))
    {
      finished := true;
      var flow := ReadJob();
      if flow.Next? {
        var audio;
        flow, audio := FindInput(flow.l);
        if flow.Next? && flow.l.task.None? {
          flow := UploadAudio(flow.l, audio);
          if flow.Next? {
            flow := Submit(flow.l);
          }
        }
        if flow.Next? {
          flow := PollResult(flow.l, fuel);
        }
      }
      if flow.Caught? {
        RecordFailure(flow.l, flow.retryable, flow.code);
      }
      finished := !flow.Next?;
    }

    /** `acquire`.  Whatever the other workers, the clock and the provider do in between, the code's
        effect on the shared state is a run of the step system; it ends with the lease given back,
        unless the polling outlasts `fuel` rounds. */
    method Acquire(fuel: nat) returns (finished: bool)
      requires Tracks(Start)
      modifies this
      ensures world == Run(start, trace, true)
      ensures finished ==> Tracks(Ended)
    {
      var claimed := ClaimJob();
      if !claimed {
        return true;
      }
      finished := AcquireClaimed(fuel);
      if finished {
        Release();
      }
    }
  }
}
