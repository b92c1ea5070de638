/** Progress of speech-recognition acquisition: what a worker achieves when everything it asks for
    goes well, and what a failed attempt leaves behind. */
module AsrProgress {
  import opened Wrappers
  import opened Leases
  import opened AsrDispatch

  lemma {:induction false} RunThen(s: Sys, es: seq<Event>, e: Event)
    ensures Run(s, es + [e], true) == Step(Run(s, es, true), e, true)
    decreases |es|
  {
    if es != [] {
      assert (es + [e])[0] == es[0] && (es + [e])[1..] == es[1..] + [e];
      RunThen(Step(s, es[0], true), es[1..], e);
    } else {
      assert es + [e] == [e] && [e][1..] == [];
    }
  }

  /** The worker stands at `pc` and its claim passes. */
  predicate Holding(s: Sys, w: nat, pc: Pc) {
    && w in s.workers && s.workers[w].pc == pc && s.workers[w].claim.Some?
    && Passes(s.job.lease, s.workers[w].claim.value, s.now)
  }

  /** What stays as it is while one worker acts: its claim, the lease and the video. */
  predicate SameHold(s: Sys, t: Sys, w: nat) {
    && t.now == s.now && t.job.lease == s.job.lease && t.raw == s.raw
    && w in s.workers && w in t.workers && t.workers[w].claim == s.workers[w].claim && t.workers[w].manual == s.workers[w].manual
  }

  /** The worker's own steps, with every outside call answered well. */
  predicate GoesWell(e: Event, w: nat) {
    (e.Spawn? && e.w == w) || (e.Act? && e.w == w && e.o.ok)
  }

  /** The run goes from `s` to `t` by `es`, and only worker `w` acts in it. */
  ghost predicate Reaches(s: Sys, es: seq<Event>, t: Sys, w: nat) {
    Run(s, es, true) == t && forall i :: 0 <= i < |es| ==> GoesWell(es[i], w)
  }

  function Good(id: nat, yes: bool): Oracle {
    Oracle(true, false, false, Other(0), id, None, yes, 0)
  }

  lemma {:induction false} Go(s: Sys, es: seq<Event>, t: Sys, w: nat, o: Oracle) returns (fs: seq<Event>, u: Sys)
    requires Reaches(s, es, t, w) && o.ok
    ensures fs == es + [Act(w, o)] && u == Step(t, Act(w, o), true) && Reaches(s, fs, u, w)
  {
    fs := es + [Act(w, o)];
    u := Step(t, Act(w, o), true);
    RunThen(s, es, Act(w, o));
  }

  // ---- the claim -------------------------------------------------------------------------------

  /** The job can go on: it waits, was cut off before its dispatch, or has a task to ask for. */
  predicate Workable(job: Job) {
    || job.status == Pending || job.status == Downloading || job.status == Uploading || job.status == RetryWait
    || ((job.status == Submitted || job.status == Processing) && job.task.Some?)
  }

  /** Nobody holds the row, and it waits for a worker. */
  predicate Claimable(s: Sys) {
    && !Busy(s.job.lease, s.now)
    && Workable(s.job)
    && (s.job.retryAt.Some? ==> s.job.retryAt.value <= s.now)
  }

  /** The operator asks again for a job that went to review for a reason that leaves no doubt. */
  predicate Reviewable(s: Sys) {
    s.job.status == NeedsReview && !UnknownOutcome(s.job.code) && s.job.lease.owner.None?
  }

  /** The job as its worker finds it. */
  function Restarted(s: Sys): Job {
    if s.job.status == NeedsReview then s.job.(status := Pending, attempts := 0, retryAt := None, code := None) else s.job
  }

  lemma {:induction false} Claims(s: Sys, w: nat, manual: bool) returns (es: seq<Event>, t: Sys)
    requires w !in s.workers && (manual ==> ManualFree(s)) && (Claimable(s) || (manual && Reviewable(s)))
    ensures Reaches(s, es, t, w) && Holding(t, w, Reading) && t.workers[w].manual == manual
    ensures t.job == Restarted(s).(lease := t.job.lease) && t.raw == s.raw && t.now == s.now && t.submits == s.submits
    ensures t.job.lease.owner == Some(w)
  {
    hide Run, Step, ManualFree;
    es, t := Comes(s, w, manual);
    StartGoes(t, w);
    es, t := Go(s, es, t, w, Good(0, true));
    if s.job.status == NeedsReview {
      ResetGoes(t, w);
      es, t := Go(s, es, t, w, Good(0, true));
    }
    ClaimGoes(t, w);
    es, t := Go(s, es, t, w, Good(0, true));
  }

  /** Everything but the worker's place is as in `s`. */
  predicate OnlyAt(s: Sys, t: Sys, w: nat, pc: Pc, job: Job) {
    && w in t.workers && t.workers[w].pc == pc && t.job == job && t.raw == s.raw && t.now == s.now && t.submits == s.submits
  }

  lemma {:induction false} Comes(s: Sys, w: nat, manual: bool) returns (es: seq<Event>, t: Sys)
    requires w !in s.workers && (manual ==> ManualFree(s))
    ensures Reaches(s, es, t, w) && OnlyAt(s, t, w, Start, s.job) && t.workers[w].manual == manual
  {
    hide Run, ManualFree;
    t := Step(s, Spawn(w, manual), true);
    es := [] + [Spawn(w, manual)];
    RunNothing(s);
    RunThen(s, [], Spawn(w, manual));
  }

  lemma {:induction false} StartGoes(t: Sys, w: nat)
    requires w in t.workers && t.workers[w].pc == Start && (Workable(t.job) || (t.workers[w].manual && Reviewable(t)))
    ensures var u := Step(t, Act(w, Good(0, true)), true);
      OnlyAt(t, u, w, if t.job.status == NeedsReview then Reset else Claiming, t.job) && u.workers[w].manual == t.workers[w].manual
  {
  }

  lemma {:induction false} ResetGoes(t: Sys, w: nat)
    requires w in t.workers && t.workers[w].pc == Reset && Reviewable(t)
    ensures var u := Step(t, Act(w, Good(0, true)), true);
      OnlyAt(t, u, w, Claiming, Restarted(t)) && u.workers[w].manual == t.workers[w].manual
  {
  }

  lemma {:induction false} ClaimGoes(t: Sys, w: nat)
    requires w in t.workers && t.workers[w].pc == Claiming && Claimable(t)
    ensures var u := Step(t, Act(w, Good(0, true)), true);
      && OnlyAt(t, u, w, Reading, t.job.(lease := u.job.lease)) && u.workers[w].manual == t.workers[w].manual
      && Holding(u, w, Reading) && u.job.lease.owner == Some(w)
  {
  }

  lemma {:induction false} RunNothing(s: Sys)
    ensures Run(s, [], true) == s
  {
  }

  // ---- from the claim to the poll --------------------------------------------------------------

  /** The step from `t` leads to `pc` and does not touch the hold; `job` is then the job. */
  predicate Leads(t: Sys, u: Sys, w: nat, pc: Pc, job: Job) {
    Holding(u, w, pc) && SameHold(t, u, w) && u.job == job
  }

  lemma {:induction false} ReadGoes(t: Sys, w: nat)
    requires Holding(t, w, Reading)
    ensures var u := Step(t, Act(w, Good(0, true)), true); Leads(t, u, w, ReadingJob(t.raw), t.job) && u.submits == t.submits
  {
  }

  lemma {:induction false} ReadJobGoes(t: Sys, w: nat, raw: Option<nat>)
    requires Holding(t, w, ReadingJob(raw)) && Workable(t.job)
    ensures var u := Step(t, Act(w, Good(0, true)), true);
      Leads(t, u, w, SetTrigger(Local(t.job.task, t.job.url, t.job.attempts, t.job.manual, raw)), t.job) && u.submits == t.submits
  {
  }

  lemma {:induction false} TriggerGoes(t: Sys, w: nat, l: Local, haveAudio: bool)
    requires Holding(t, w, SetTrigger(l))
    ensures var u := Step(t, Act(w, Good(0, haveAudio)), true);
      && Leads(t, u, w, AfterTrigger(l.(manual := l.manual || t.workers[w].manual), haveAudio), u.job)
      && u.job.(manual := t.job.manual) == t.job && u.submits == t.submits
  {
    hide AfterTrigger;
  }

  lemma {:induction false} DownloadGoes(t: Sys, w: nat, l: Local)
    requires Holding(t, w, DownloadCommit(l))
    ensures var u := Step(t, Act(w, Good(0, true)), true);
      Leads(t, u, w, UploadCommit(l), t.job.(status := Downloading)) && u.submits == t.submits
  {
  }

  lemma {:induction false} UploadGoes(t: Sys, w: nat, l: Local)
    requires Holding(t, w, UploadCommit(l))
    ensures var u := Step(t, Act(w, Good(0, true)), true);
      Leads(t, u, w, UploadCall(l), t.job.(status := Uploading)) && u.submits == t.submits
  {
  }

  lemma {:induction false} UploadCallGoes(t: Sys, w: nat, l: Local, url: nat)
    requires Holding(t, w, UploadCall(l))
    ensures var u := Step(t, Act(w, Good(url, true)), true); Leads(t, u, w, UrlCommit(l, url), t.job) && u.submits == t.submits
  {
  }

  lemma {:induction false} UrlGoes(t: Sys, w: nat, l: Local, url: nat)
    requires Holding(t, w, UrlCommit(l, url))
    ensures var u := Step(t, Act(w, Good(0, true)), true);
      Leads(t, u, w, DispatchCommit(l.(url := Some(url))), t.job.(url := Some(url))) && u.submits == t.submits
  {
  }

  lemma {:induction false} DispatchGoes(t: Sys, w: nat, l: Local)
    requires Holding(t, w, DispatchCommit(l))
    ensures var u := Step(t, Act(w, Good(0, true)), true);
      Leads(t, u, w, SubmitCall(l), t.job.(status := Submitted, code := Some(ExternalResultUnknown))) && u.submits == t.submits
  {
  }

  lemma {:induction false} SubmitGoes(t: Sys, w: nat, l: Local, task: nat)
    requires Holding(t, w, SubmitCall(l))
    ensures var u := Step(t, Act(w, Good(task, true)), true); Leads(t, u, w, TaskCommit(l, task), t.job) && u.submits == t.submits + 1
  {
  }

  lemma {:induction false} TaskGoes(t: Sys, w: nat, l: Local, task: nat)
    requires Holding(t, w, TaskCommit(l, task))
    ensures var u := Step(t, Act(w, Good(0, true)), true);
      && Leads(t, u, w, Poll(l.(task := Some(task))), t.job.(status := Submitted, task := Some(task), code := None))
      && u.submits == t.submits
  {
  }

  /** Both reads and the trigger record: the worker goes on with the job it found. */
  lemma {:induction false} Begins(s: Sys, es: seq<Event>, t: Sys, w: nat, haveAudio: bool) returns (fs: seq<Event>, u: Sys, l: Local)
    requires Reaches(s, es, t, w) && Holding(t, w, Reading)
    requires Workable(t.job)
    ensures Reaches(s, fs, u, w) && Holding(u, w, AfterTrigger(l, haveAudio)) && SameHold(t, u, w) && u.submits == t.submits
    ensures l.task == t.job.task && l.url == t.job.url && l.raw == t.raw
    ensures u.job.(manual := t.job.manual) == t.job
  {
    hide Run, Step, AfterTrigger;
    ReadGoes(t, w);
    fs, u := Go(s, es, t, w, Good(0, true));
    ReadJobGoes(u, w, t.raw);
    fs, u := Go(s, fs, u, w, Good(0, true));
    l := Local(t.job.task, t.job.url, t.job.attempts, t.job.manual, t.raw);
    TriggerGoes(u, w, l, haveAudio);
    fs, u := Go(s, fs, u, w, Good(0, haveAudio));
    l := l.(manual := l.manual || t.workers[w].manual);
  }

  /** Without a task and an upload, the audio is downloaded unless it is there, and uploaded. */
  lemma {:induction false} Uploads(s: Sys, es: seq<Event>, t: Sys, w: nat, l: Local, haveAudio: bool, url: nat) returns (fs: seq<Event>, u: Sys)
    requires Reaches(s, es, t, w) && Holding(t, w, if haveAudio then UploadCommit(l) else DownloadCommit(l))
    ensures Reaches(s, fs, u, w) && Holding(u, w, DispatchCommit(l.(url := Some(url)))) && SameHold(t, u, w)
    ensures u.submits == t.submits && u.job == t.job.(status := Uploading, url := Some(url))
  {
    hide Run, Step;
    fs, u := es, t;
    if !haveAudio {
      DownloadGoes(u, w, l);
      fs, u := Go(s, fs, u, w, Good(0, true));
    }
    UploadGoes(u, w, l);
    fs, u := Go(s, fs, u, w, Good(0, true));
    UploadCallGoes(u, w, l, url);
    fs, u := Go(s, fs, u, w, Good(url, true));
    UrlGoes(u, w, l, url);
    fs, u := Go(s, fs, u, w, Good(0, true));
  }

  /** The dispatch is committed, the request sent once, and its task id committed. */
  lemma {:induction false} Submits(s: Sys, es: seq<Event>, t: Sys, w: nat, l: Local, task: nat) returns (fs: seq<Event>, u: Sys)
    requires Reaches(s, es, t, w) && Holding(t, w, DispatchCommit(l))
    ensures Reaches(s, fs, u, w) && Holding(u, w, Poll(l.(task := Some(task)))) && SameHold(t, u, w)
    ensures u.submits == t.submits + 1 && u.job == t.job.(status := Submitted, task := Some(task), code := None)
  {
    hide Run, Step;
    DispatchGoes(t, w, l);
    fs, u := Go(s, es, t, w, Good(0, true));
    SubmitGoes(u, w, l, task);
    fs, u := Go(s, fs, u, w, Good(task, true));
    TaskGoes(u, w, l, task);
    fs, u := Go(s, fs, u, w, Good(0, true));
  }

  /** Up to the poll: a request is sent exactly when no task is known. */
  lemma {:induction false} Prepares(s: Sys, es: seq<Event>, t: Sys, w: nat, haveAudio: bool, url: nat, task: nat)
    returns (fs: seq<Event>, u: Sys, l: Local)
    requires Reaches(s, es, t, w) && Holding(t, w, Reading)
    requires Workable(t.job)
    ensures Reaches(s, fs, u, w) && Holding(u, w, Poll(l)) && SameHold(t, u, w) && l.raw == u.raw
    ensures u.submits == t.submits + (if t.job.task.None? then 1 else 0)
    ensures u.job.task == if t.job.task.None? then Some(task) else t.job.task
  {
    hide Run, Holding, Reaches;
    fs, u, l := Begins(s, es, t, w, haveAudio);
    ghost var begun := u;
    if l.task.None? {
      if l.url.None? {
        ghost var before := u;
        fs, u := Uploads(s, fs, u, w, l, haveAudio, url);
        HoldTrans(t, before, u, w);
        l := l.(url := Some(url));
      }
      ghost var before := u;
      fs, u := Submits(s, fs, u, w, l, task);
      HoldTrans(t, before, u, w);
      l := l.(task := Some(task));
    }
  }

  lemma {:induction false} HoldTrans(a: Sys, b: Sys, c: Sys, w: nat)
    requires SameHold(a, b, w) && SameHold(b, c, w)
    ensures SameHold(a, c, w)
  {
  }

  // ---- from the poll to the end ----------------------------------------------------------------

  lemma {:induction false} PollGoes(t: Sys, w: nat, l: Local, done: bool)
    requires Holding(t, w, Poll(l))
    ensures var u := Step(t, Act(w, Good(0, done)), true);
      Leads(t, u, w, if done then Publish(l) else PollCommit(l), t.job) && u.submits == t.submits
  {
  }

  lemma {:induction false} PollCommitGoes(t: Sys, w: nat, l: Local)
    requires Holding(t, w, PollCommit(l))
    ensures var u := Step(t, Act(w, Good(0, true)), true); Leads(t, u, w, Poll(l), t.job.(status := Processing)) && u.submits == t.submits
  {
  }

  lemma {:induction false} PublishGoes(t: Sys, w: nat, l: Local, raw: nat)
    requires Holding(t, w, Publish(l)) && l.raw == t.raw
    ensures var u := Step(t, Act(w, Good(raw, true)), true);
      && Holding(u, w, Releasing) && u.raw == Some(raw) && u.submits == t.submits
      && u.job.status == Completed && u.job.task == t.job.task
  {
  }

  lemma {:induction false} ReleaseGoes(t: Sys, w: nat)
    requires Holding(t, w, Releasing)
    ensures var u := Step(t, Act(w, Good(0, true)), true);
      && w in u.workers && u.workers[w].pc == Ended && u.job.lease.owner.None? && u.raw == t.raw && u.submits == t.submits
      && u.job.status == t.job.status && u.job.task == t.job.task
  {
  }

  /** Any number of unfinished answers, then the finished one, the publication and the release. */
  lemma {:induction false} Finishes(s: Sys, es: seq<Event>, t: Sys, w: nat, l: Local, rounds: nat, raw: nat) returns (fs: seq<Event>, u: Sys)
    requires Reaches(s, es, t, w) && Holding(t, w, Poll(l)) && l.raw == t.raw
    ensures Reaches(s, fs, u, w) && u.job.status == Completed && u.raw == Some(raw) && u.job.lease.owner.None?
    ensures u.submits == t.submits && u.job.task == t.job.task && w in u.workers && u.workers[w].pc == Ended
    decreases rounds
  {
    hide Run, Step;
    fs, u := es, t;
    PollGoes(u, w, l, rounds == 0);
    fs, u := Go(s, fs, u, w, Good(0, rounds == 0));
    if rounds > 0 {
      PollCommitGoes(u, w, l);
      fs, u := Go(s, fs, u, w, Good(0, true));
      fs, u := Finishes(s, fs, u, w, l, rounds - 1, raw);
    } else {
      PublishGoes(u, w, l, raw);
      fs, u := Go(s, fs, u, w, Good(raw, true));
      ReleaseGoes(u, w);
      fs, u := Go(s, fs, u, w, Good(0, true));
    }
  }

  /** From any row that waits, and from one in review that an operator asks for again: a worker for whom
      everything goes well ends with the result as the video's raw subtitle, the job completed, the
      lease given back, and one request sent, or none when a task was known already. */
  lemma {:induction false} GoodRunCompletes(s: Sys, w: nat, manual: bool, haveAudio: bool, url: nat, task: nat, rounds: nat, raw: nat)
    returns (es: seq<Event>)
    requires w !in s.workers && (manual ==> ManualFree(s)) && (Claimable(s) || (manual && Reviewable(s)))
    ensures forall i :: 0 <= i < |es| ==> GoesWell(es[i], w)
    ensures var t := Run(s, es, true);
      && t.job.status == Completed && t.raw == Some(raw) && t.job.lease.owner.None?
      && t.job.task == (if s.job.task.None? then Some(task) else s.job.task)
      && t.submits == s.submits + (if s.job.task.None? then 1 else 0)
  {
    hide Run, Holding, SameHold, ManualFree;
    var t, l;
    es, t := Claims(s, w, manual);
    es, t, l := Prepares(s, es, t, w, haveAudio, url, task);
    es, t := Finishes(s, es, t, w, l, rounds, raw);
  }

  // ---- after a failure -------------------------------------------------------------------------

  /** What a failed attempt leaves, when its claim still passes: review if a request may have been sent
      and no task is known; otherwise another try while fewer than three attempts were made and the
      error allows one, and review if not. */
  lemma {:induction false} FailureIsRecorded(s: Sys, w: nat, o: Oracle, p: Oracle)
    requires w in s.workers && s.workers[w].pc.FailRead? && Holding(s, w, s.workers[w].pc)
    ensures var pc, job := s.workers[w].pc, Step(Step(s, Act(w, o), true), Act(w, p), true).job;
      var unknown := s.job.status == Submitted && s.job.task.None?;
      && job.attempts == pc.l.attempts + 1 && job.task == s.job.task && job.url == s.job.url
      && (job.status == RetryWait <==> !unknown && pc.retryable && pc.l.attempts < 2)
      && (job.status == RetryWait || job.status == NeedsReview)
      && (job.retryAt == if job.status == RetryWait then Some(o.at) else None)
      && (job.code == Some(if unknown then SubmitUnknown else pc.code))
  {
  }
}
