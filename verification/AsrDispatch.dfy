/** Speech-recognition acquisition of `src/shiliu/asr.py` over one `asr_jobs` row.

    Any number of workers run `ASRService.acquire`; each is a program counter, the claim it
    was granted and the local copy of the job it works from.  One `Act` is one transaction or
    one external call.  Between any two, time may pass, a worker may stall or die, a heartbeat
    may run and the video's raw subtitle may be replaced.  What the provider answers, whether
    it raises, and what wall-clock comparisons say comes from an `Oracle`. */
module AsrDispatch {
  import opened Wrappers
  import opened Leases

  datatype Status = Pending | Downloading | Uploading | Submitted | Processing | RetryWait | NeedsReview | Completed

  datatype Code = ExternalResultUnknown | SubmitUnknown | Other(name: nat)

  /** The two codes that say a request may have been sent. */
  predicate UnknownOutcome(code: Option<Code>) {
    code == Some(ExternalResultUnknown) || code == Some(SubmitUnknown)
  }

  datatype Job = Job(status: Status, task: Option<nat>, url: Option<nat>, attempts: nat, retryAt: Option<int>,
                     code: Option<Code>, manual: bool, lease: Lease)

  /** The fields of the local `job` dictionary that later decisions use. */
  datatype Local = Local(task: Option<nat>, url: Option<nat>, attempts: nat, manual: bool, raw: Option<nat>)

  datatype Pc =
    | Start          // read the job, decide whether to go on
    | Reset          // manual retry without a claim
    | Claiming
    | Reading        // read the video under the claim
    | ReadingJob(raw: Option<nat>)  // read the job again
    | ClaimedReset(l: Local)
    | SetTrigger(l: Local)
    | DownloadCommit(l: Local)
    | UploadCommit(l: Local)
    | UploadCall(l: Local)
    | UrlCommit(l: Local, url: nat)
    | DispatchCommit(l: Local)
    | SubmitCall(l: Local)
    | TaskCommit(l: Local, task: nat)
    | Poll(l: Local)
    | PollCommit(l: Local)
    | Publish(l: Local)
    | FailRead(l: Local, retryable: bool, code: Code)
    | FailWrite(status: Status, attempts: nat, retryAt: Option<int>, code: Code)
    | Releasing
    | Ended
    | Dead

  datatype Worker = Worker(manual: bool, pc: Pc, claim: Option<Claim>)

  /** One answer of the outside world.  `ok`: the external call returned normally;
      `pipelineError`: it raised the error type that `_acquire_claimed` catches. */
  datatype Oracle = Oracle(ok: bool, pipelineError: bool, retryable: bool, code: Code, id: nat, raw: Option<nat>, yes: bool, at: int)

  /** `first` is history: the worker that committed the dispatch, if any did;
      `submits` counts the calls of `provider.submit`. */
  datatype Sys = Sys(now: int, job: Job, raw: Option<nat>, workers: map<nat, Worker>, first: Option<nat>, submits: nat)

  datatype Event =
    | Tick(d: nat)
    | Spawn(w: nat, manual: bool)
    | Crash(w: nat)
    | Beat(w: nat)
    | SetRaw(value: Option<nat>)
    | Act(w: nat, o: Oracle)

  const LEASE_SECONDS := 120

  function At(s: Sys, w: nat, pc: Pc): Sys
    requires w in s.workers
  {
    s.(workers := s.workers[w := s.workers[w].(pc := pc)])
  }

  /** A transaction with `claim=`: the update commits and the worker goes to `next`, or the
      guard raises and the worker leaves through the lease's release. */
  function Guarded(s: Sys, w: nat, job: Job, next: Pc): Sys
    requires w in s.workers && s.workers[w].claim.Some?
  {
    if Passes(s.job.lease, s.workers[w].claim.value, s.now) then At(s, w, next).(job := job) else At(s, w, Releasing)
  }

  /** An external call that did not return: a caught error goes to failure recording. */
  function Raised(s: Sys, w: nat, l: Local, o: Oracle): Sys
    requires w in s.workers
  {
    At(s, w, if o.pipelineError then FailRead(l, o.retryable, o.code) else Releasing)
  }

  function StartStep(s: Sys, w: nat, o: Oracle): Sys
    requires w in s.workers
  {
    if s.job.status == Completed && o.raw.Some? then At(s, w, Ended)
    else if s.job.status == NeedsReview then
      if UnknownOutcome(s.job.code) || !s.workers[w].manual then At(s, w, Ended) else At(s, w, Reset)
    else At(s, w, Claiming)
  }

  /** The update without a claim: `_assert_unclaimed` refuses it while an owner is recorded. */
  function ResetStep(s: Sys, w: nat): Sys
    requires w in s.workers
  {
    if s.job.lease.owner.Some? then At(s, w, Ended)
    else At(s, w, Claiming).(job := s.job.(status := Pending, attempts := 0, retryAt := None, code := None))
  }

  /** Dispatched with no upstream identity: `_claim` may not hand such a row out again. */
  predicate Uncertain(job: Job) {
    job.task.None? && (job.status == Submitted || job.status == Processing)
  }

  function ClaimStep(s: Sys, w: nat): Sys
    requires w in s.workers
  {
    if Busy(s.job.lease, s.now) || s.job.status == Completed then At(s, w, Ended)
    else if s.job.retryAt.Some? && s.job.retryAt.value > s.now then At(s, w, Ended)
    else if Uncertain(s.job) then
      At(s, w, Ended).(job := s.job.(status := NeedsReview, code := Some(ExternalResultUnknown), lease := Revoked(s.job.lease)))
    else if s.job.status == NeedsReview then At(s, w, Ended)
    else
      var lease := Taken(s.job.lease, w, s.now, LEASE_SECONDS);
      s.(job := s.job.(lease := lease),
         workers := s.workers[w := Worker(s.workers[w].manual, Reading, Some(Claim(w, lease.epoch)))])
  }

  function AfterTrigger(l: Local, haveAudio: bool): Pc {
    if l.task.Some? then Poll(l)
    else if l.url.Some? then DispatchCommit(l)
    else if haveAudio then UploadCommit(l) else DownloadCommit(l)
  }

  /** The raw subtitle the video has now is the input this worker goes by.  `yes` is the wall-clock
      test `_is_due`. */
  function ReadStep(s: Sys, w: nat, raw: Option<nat>, o: Oracle): Sys
    requires w in s.workers
  {
    var l := Local(s.job.task, s.job.url, s.job.attempts, s.job.manual, raw);
    if s.job.status == Completed && raw.Some? then At(s, w, Releasing)
    else if s.job.status == NeedsReview then
      At(s, w, if s.workers[w].manual then ClaimedReset(l) else Releasing)
    else if s.job.status == RetryWait && !o.yes then At(s, w, Releasing)
    else At(s, w, SetTrigger(l))
  }

  function ClaimedResetStep(s: Sys, w: nat, l: Local): Sys
    requires w in s.workers && s.workers[w].claim.Some?
  {
    Guarded(s, w, s.job.(status := Pending, attempts := 0, retryAt := None, code := None, manual := true),
            SetTrigger(l.(attempts := 0, manual := true)))
  }

  function TriggerStep(s: Sys, w: nat, l: Local, o: Oracle): Sys
    requires w in s.workers && s.workers[w].claim.Some?
  {
    var l' := l.(manual := l.manual || s.workers[w].manual);
    // a stored audio path that cannot be used is a caught error, unless a task is already known
    var next := if l.task.None? && !o.ok then FailRead(l', o.retryable, o.code) else AfterTrigger(l', o.yes);
    if s.workers[w].manual && !l.manual then Guarded(s, w, s.job.(manual := true), next) else At(s, w, next)
  }

  function PollStep(s: Sys, w: nat, l: Local, o: Oracle): Sys
    requires w in s.workers
  {
    if !o.ok then Raised(s, w, l, o)
    else if o.yes then At(s, w, Publish(l)) else At(s, w, PollCommit(l))
  }

  /** `batch.commit`: the validation and the publication are one transaction. */
  function PublishStep(s: Sys, w: nat, l: Local, o: Oracle): Sys
    requires w in s.workers && s.workers[w].claim.Some?
  {
    if !o.ok then Raised(s, w, l, o)
    else if s.raw != l.raw then At(s, w, Releasing)
    else if Passes(s.job.lease, s.workers[w].claim.value, s.now) then
      At(s, w, Releasing).(job := s.job.(status := Completed, retryAt := None, code := None), raw := Some(o.id))
    else At(s, w, Releasing)
  }

  /** `_record_failure` reads the row first and writes in a second transaction. */
  function FailReadStep(s: Sys, w: nat, l: Local, retryable: bool, code: Code, o: Oracle): Sys
    requires w in s.workers
  {
    var attempt := l.attempts + 1;
    var final := !retryable || attempt >= 3;
    At(s, w,
       if s.job.task.None? && s.job.status == Submitted then FailWrite(NeedsReview, attempt, None, SubmitUnknown)
       else if final then FailWrite(NeedsReview, attempt, None, code)
       else FailWrite(RetryWait, attempt, Some(o.at), code))
  }

  function ReleaseStep(s: Sys, w: nat): Sys
    requires w in s.workers && s.workers[w].claim.Some?
  {
    if Passes(s.job.lease, s.workers[w].claim.value, s.now)
    then At(s, w, Ended).(job := s.job.(lease := Freed(s.job.lease))) else At(s, w, Ended)
  }

  predicate HasClaim(k: Worker) {
    k.claim.Some? || k.pc in {Start, Reset, Claiming, Ended, Dead}
  }

  function WorkerStep(s: Sys, w: nat, o: Oracle): Sys
    requires w in s.workers && HasClaim(s.workers[w])
  {
    match s.workers[w].pc
    case Start => StartStep(s, w, o)
    case Reset => ResetStep(s, w)
    case Claiming => ClaimStep(s, w)
    case Reading => At(s, w, ReadingJob(s.raw))
    case ReadingJob(raw) => ReadStep(s, w, raw, o)
    case ClaimedReset(l) => ClaimedResetStep(s, w, l)
    case SetTrigger(l) => TriggerStep(s, w, l, o)
    case DownloadCommit(l) =>
      if o.ok then Guarded(s, w, s.job.(status := Downloading), UploadCommit(l))
      else Guarded(s, w, s.job.(status := Downloading), if o.pipelineError then FailRead(l, o.retryable, o.code) else Releasing)
    case UploadCommit(l) => Guarded(s, w, s.job.(status := Uploading), UploadCall(l))
    case UploadCall(l) => if o.ok then At(s, w, UrlCommit(l, o.id)) else Raised(s, w, l, o)
    case UrlCommit(l, url) => Guarded(s, w, s.job.(url := Some(url)), DispatchCommit(l.(url := Some(url))))
    case DispatchCommit(l) =>
      var t := Guarded(s, w, s.job.(status := Submitted, code := Some(ExternalResultUnknown)), SubmitCall(l));
      if t.workers[w].pc.SubmitCall? then t.(first := Some(w)) else t
    case SubmitCall(l) =>
      (if o.ok then At(s, w, TaskCommit(l, o.id)) else Raised(s, w, l, o)).(submits := s.submits + 1)
    case TaskCommit(l, task) =>
      Guarded(s, w, s.job.(status := Submitted, task := Some(task), code := None), Poll(l.(task := Some(task))))
    case Poll(l) => PollStep(s, w, l, o)
    case PollCommit(l) => Guarded(s, w, s.job.(status := Processing), if o.yes then Poll(l) else Releasing)
    case Publish(l) => PublishStep(s, w, l, o)
    case FailRead(l, retryable, code) => FailReadStep(s, w, l, retryable, code, o)
    case FailWrite(status, attempts, retryAt, code) =>
      Guarded(s, w, s.job.(status := status, attempts := attempts, retryAt := retryAt, code := Some(code)), Releasing)
    case Releasing => ReleaseStep(s, w)
    case Ended => s
    case Dead => s
  }

  predicate Active(k: Worker) {
    !k.pc.Ended? && !k.pc.Dead?
  }

  /** The process lock around `process_manual_asr`: one manual acquisition at a time. */
  predicate ManualFree(s: Sys) {
    forall w :: w in s.workers && s.workers[w].manual ==> !Active(s.workers[w])
  }

  /** `locked` says whether manual acquisitions go through the process lock. */
  function Step(s: Sys, e: Event, locked: bool): Sys {
    match e
    case Tick(d) => s.(now := s.now + d)
    case Spawn(w, manual) =>
      if w in s.workers || (manual && locked && !ManualFree(s)) then s
      else s.(workers := s.workers[w := Worker(manual, Start, None)])
    case Crash(w) => if w in s.workers then At(s, w, Dead) else s
    case Beat(w) =>
      if w in s.workers && Active(s.workers[w]) && s.workers[w].claim.Some? && Passes(s.job.lease, s.workers[w].claim.value, s.now)
      then s.(job := s.job.(lease := s.job.lease.(until := Some(s.now + LEASE_SECONDS)))) else s
    case SetRaw(value) => s.(raw := value)
    case Act(w, o) => if w in s.workers && HasClaim(s.workers[w]) then WorkerStep(s, w, o) else s
  }

  function Run(s: Sys, es: seq<Event>, locked: bool): Sys
    decreases |es|
  {
    if es == [] then s else Run(Step(s, es[0], locked), es[1..], locked)
  }

  /** Any row nobody has claimed, with no worker running yet. */
  ghost predicate Initial(s: Sys) {
    s.workers == map[] && s.first.None? && s.submits == 0 && s.job.lease.owner.None?
  }
}
