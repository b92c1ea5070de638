/** When a recognition result is published: only over the input its worker read under its claim. */
module AsrPublish {
  import opened Wrappers
  import opened Leases
  import opened AsrDispatch
  import opened AsrSafety

  /** The raw subtitle a worker goes by, from the read of the video on. */
  function InputOf(pc: Pc): Option<Option<nat>> {
    match pc
    case ReadingJob(raw) => Some(raw)
    case ClaimedReset(l) => Some(l.raw)
    case SetTrigger(l) => Some(l.raw)
    case DownloadCommit(l) => Some(l.raw)
    case UploadCommit(l) => Some(l.raw)
    case UploadCall(l) => Some(l.raw)
    case UrlCommit(l, _) => Some(l.raw)
    case DispatchCommit(l) => Some(l.raw)
    case SubmitCall(l) => Some(l.raw)
    case TaskCommit(l, _) => Some(l.raw)
    case Poll(l) => Some(l.raw)
    case PollCommit(l) => Some(l.raw)
    case Publish(l) => Some(l.raw)
    case _ => None
  }

  ghost predicate HasInput(s: Sys, w: nat) {
    w in s.workers && InputOf(s.workers[w].pc).Some?
  }

  /** The worker's next step reads the video, under its claim. */
  ghost predicate ReadsVideo(s: Sys, e: Event, w: nat) {
    w in s.workers && s.workers[w].pc.Reading? && s.workers[w].claim.Some? && e.Act? && e.w == w
  }

  /** A step gives a worker its input by reading the video, or leaves the input and the claim. */
  lemma {:induction false} InputStays(s: Sys, e: Event, w: nat)
    requires HasInput(Step(s, e, true), w)
    ensures var t := Step(s, e, true);
      && w in s.workers && t.workers[w].claim == s.workers[w].claim
      && (if ReadsVideo(s, e, w) then InputOf(t.workers[w].pc) == Some(s.raw)
          else InputOf(t.workers[w].pc) == InputOf(s.workers[w].pc))
  {
    hide Passes, Busy, WorkerStep;
    if e.Act? && e.w == w && w in s.workers && HasClaim(s.workers[w]) {
      ActInputStays(s, w, e.o);
    } else if w in s.workers && Foreign(e, w) {
      StepKeepsOther(s, e, w);
    } else if e.Act? && w !in s.workers {
      OtherSpawnsNone(s, e, w);
    }
  }

  lemma {:induction false} OtherSpawnsNone(s: Sys, e: Event, w: nat)
    requires e.Act? && w !in s.workers
    ensures w !in Step(s, e, true).workers
  {
  }

  ghost predicate SameInput(s: Sys, t: Sys, w: nat)
    requires w in s.workers && w in t.workers
  {
    && t.workers[w].claim == s.workers[w].claim
    && (if s.workers[w].pc.Reading? then InputOf(t.workers[w].pc) == Some(s.raw)
        else InputOf(t.workers[w].pc) == InputOf(s.workers[w].pc))
  }

  predicate Uploads(pc: Pc) {
    pc.DownloadCommit? || pc.UploadCommit? || pc.UploadCall? || pc.UrlCommit? || pc.DispatchCommit?
  }

  lemma {:induction false} ActInputStays(s: Sys, w: nat, o: Oracle)
    requires w in s.workers && HasClaim(s.workers[w]) && HasInput(WorkerStep(s, w, o), w)
    ensures w in WorkerStep(s, w, o).workers && SameInput(s, WorkerStep(s, w, o), w)
  {
    hide WorkerStep, SameInput;
    if Early(s.workers[w].pc) {
      EarlyInputStays(s, w, o);
    } else if Uploads(s.workers[w].pc) {
      UploadInputStays(s, w, o);
    } else if Awaits(s.workers[w].pc) {
      AwaitInputStays(s, w, o);
    } else if s.workers[w].pc.Publish? {
      PublishEnds(s, w, o);
    } else {
      NoInputLeft(s, w, o);
    }
  }

  lemma {:induction false} EarlyInputStays(s: Sys, w: nat, o: Oracle)
    requires w in s.workers && HasClaim(s.workers[w]) && HasInput(WorkerStep(s, w, o), w) && Early(s.workers[w].pc)
    ensures SameInput(s, WorkerStep(s, w, o), w)
  {
    hide Passes, Busy, Uncertain;
  }

  lemma {:induction false} UploadInputStays(s: Sys, w: nat, o: Oracle)
    requires w in s.workers && HasClaim(s.workers[w]) && HasInput(WorkerStep(s, w, o), w) && Uploads(s.workers[w].pc)
    ensures SameInput(s, WorkerStep(s, w, o), w)
  {
    hide Passes;
  }

  predicate Awaits(pc: Pc) {
    pc.SubmitCall? || pc.TaskCommit? || pc.Poll? || pc.PollCommit?
  }

  lemma {:induction false} AwaitInputStays(s: Sys, w: nat, o: Oracle)
    requires w in s.workers && HasClaim(s.workers[w]) && HasInput(WorkerStep(s, w, o), w) && Awaits(s.workers[w].pc)
    ensures SameInput(s, WorkerStep(s, w, o), w)
  {
    hide Passes;
  }

  lemma {:induction false} PublishEnds(s: Sys, w: nat, o: Oracle)
    requires w in s.workers && HasClaim(s.workers[w]) && s.workers[w].pc.Publish?
    ensures !HasInput(WorkerStep(s, w, o), w)
  {
    hide Passes;
  }

  /** After a failure a worker goes by no input any more. */
  predicate Finishes(pc: Pc) {
    pc.FailRead? || pc.FailWrite? || pc.Releasing? || pc.Ended? || pc.Dead?
  }

  lemma {:induction false} NoInputLeft(s: Sys, w: nat, o: Oracle)
    requires w in s.workers && HasClaim(s.workers[w]) && Finishes(s.workers[w].pc)
    ensures !HasInput(WorkerStep(s, w, o), w)
  {
    hide Passes;
  }

  lemma {:induction false} RunSnoc(s: Sys, es: seq<Event>)
    requires es != []
    ensures Run(s, es, true) == Step(Run(s, es[..|es| - 1], true), es[|es| - 1], true)
  {
    var init, e := es[..|es| - 1], es[|es| - 1];
    assert es == init + [e];
    RunAppend(s, init, [e], true);
    assert Run(Step(Run(s, init, true), e, true), [e][1..], true) == Step(Run(s, init, true), e, true);
  }

  /** Step `n` of the run is the worker's read of the video, under the claim it has at the end. */
  ghost predicate ReadAt(s: Sys, es: seq<Event>, n: nat, w: nat, k: Worker) {
    && n < |es| && ReadsVideo(Run(s, es[..n], true), es[n], w)
    && Run(s, es[..n], true).workers[w].claim == k.claim
    && InputOf(k.pc) == Some(Run(s, es[..n], true).raw)
  }

  /** Whatever a worker goes by, it read from the video under its claim, and it never changed. */
  lemma {:induction false} InputWasRead(s: Sys, es: seq<Event>, w: nat) returns (n: nat)
    requires Initial(s) && HasInput(Run(s, es, true), w)
    ensures ReadAt(s, es, n, w, Run(s, es, true).workers[w])
    decreases |es|
  {
    var init, e := es[..|es| - 1], es[|es| - 1];
    RunSnoc(s, es);
    InputStays(Run(s, init, true), e, w);
    if ReadsVideo(Run(s, init, true), e, w) {
      n := |es| - 1;
    } else {
      n := InputWasRead(s, init, w);
      assert es[..n] == init[..n];
    }
  }

  /** The step publishes: the video gets another raw subtitle, or the job becomes completed. */
  ghost predicate Publishes(s: Sys, t: Sys) {
    t.raw != s.raw || (t.job.status == Completed && s.job.status != Completed)
  }

  /** Every step but the publication leaves the raw subtitle, and completes nothing. */
  lemma {:induction false} OthersAreQuiet(s: Sys, w: nat, o: Oracle)
    requires w in s.workers && HasClaim(s.workers[w]) && !s.workers[w].pc.Publish?
    requires s.workers[w].pc.FailWrite? ==> s.workers[w].pc.status != Completed
    ensures !Publishes(s, WorkerStep(s, w, o))
  {
    hide WorkerStep, Publishes;
    if Early(s.workers[w].pc) {
      EarlyIsQuiet(s, w, o);
    } else {
      LateIsQuiet(s, w, o);
    }
  }

  lemma {:induction false} EarlyIsQuiet(s: Sys, w: nat, o: Oracle)
    requires w in s.workers && HasClaim(s.workers[w]) && Early(s.workers[w].pc)
    ensures !Publishes(s, WorkerStep(s, w, o))
  {
    hide Passes, Busy;
  }

  lemma {:induction false} LateIsQuiet(s: Sys, w: nat, o: Oracle)
    requires w in s.workers && HasClaim(s.workers[w]) && !Early(s.workers[w].pc) && !s.workers[w].pc.Publish?
    requires s.workers[w].pc.FailWrite? ==> s.workers[w].pc.status != Completed
    ensures !Publishes(s, WorkerStep(s, w, o))
  {
    hide Passes;
  }

  lemma {:induction false} OnlyPublication(s: Sys, w: nat, o: Oracle)
    requires w in s.workers && WorkerOk(s.job, s.first, s.submits, w, s.workers[w])
    requires Publishes(s, Step(s, Act(w, o), true))
    ensures s.workers[w].pc.Publish? && s.workers[w].claim.Some? && o.ok
    ensures Passes(s.job.lease, s.workers[w].claim.value, s.now) && s.workers[w].pc.l.raw == s.raw
    ensures var t := Step(s, Act(w, o), true); t.raw == Some(o.id) && t.job.status == Completed
  {
    if !s.workers[w].pc.Publish? {
      OthersAreQuiet(s, w, o);
    }
  }

  /** In every run, whenever a worker's step changes the video's raw subtitle or completes the job:
      the call went well, the claim passes, both are written, and the raw subtitle of this moment is
      the one that this worker read under the same claim. */
  lemma {:induction false} PublishedOverItsInput(s: Sys, es: seq<Event>, w: nat, o: Oracle) returns (n: nat)
    requires Initial(s) && Publishes(Run(s, es, true), Step(Run(s, es, true), Act(w, o), true))
    ensures var u, t := Run(s, es, true), Step(Run(s, es, true), Act(w, o), true);
      && w in u.workers && u.workers[w].claim.Some? && Passes(u.job.lease, u.workers[w].claim.value, u.now)
      && o.ok && t.raw == Some(o.id) && t.job.status == Completed
      && ReadAt(s, es, n, w, u.workers[w]) && Run(s, es[..n], true).raw == u.raw
  {
    var u := Run(s, es, true);
    RunKeeps(s, es);
    assert w in u.workers;
    assert WorkerOk(u.job, u.first, u.submits, w, u.workers[w]);
    OnlyPublication(u, w, o);
    n := InputWasRead(s, es, w);
  }

  /** And it is always published then: over an equal input, under a passing claim, a good answer
      becomes the video's raw subtitle and completes the job, and changes nothing else of it. */
  lemma {:induction false} GoodResultIsPublished(s: Sys, w: nat, o: Oracle)
    requires w in s.workers && s.workers[w].pc.Publish? && s.workers[w].claim.Some? && o.ok
    ensures var k, t := s.workers[w], Step(s, Act(w, o), true);
      if Passes(s.job.lease, k.claim.value, s.now) && InputOf(k.pc) == Some(s.raw)
      then t.raw == Some(o.id) && t.job == s.job.(status := Completed, retryAt := None, code := None)
      else t.raw == s.raw && t.job == s.job
  {
  }
}
