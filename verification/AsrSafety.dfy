/** At-most-once dispatch of speech recognition: what every interleaving of `AsrDispatch` keeps. */
module AsrSafety {
  import opened Wrappers
  import opened Leases
  import opened AsrDispatch

  /** The worker's claim still names the row's owner and epoch (whether or not it is live). */
  predicate Holds(job: Job, w: nat, k: Worker) {
    k.claim == Some(Claim(w, job.lease.epoch)) && job.lease.owner == Some(w)
  }

  predicate Working(pc: Pc) {
    pc !in {Start, Reset, Claiming, Releasing, Ended, Dead}
  }

  /** After a dispatch was committed, the row is settled: it stays submitted, or the upstream
      identity is known, or it waits for review with a code that says the outcome is unknown. */
  predicate Settled(job: Job) {
    job.task.Some? || job.status == Submitted || (job.status == NeedsReview && UnknownOutcome(job.code))
  }

  /** What a worker that still holds the claim may rely on at its program counter. */
  ghost predicate PcOk(job: Job, first: Option<nat>, w: nat, pc: Pc) {
    match pc
    case Reading => first.Some? ==> job.task.Some?
    case ReadingJob(raw) => first.Some? ==> job.task.Some?
    case ClaimedReset(l) => l.task == job.task && (first.Some? ==> job.task.Some?)
    case SetTrigger(l) => l.task == job.task && (first.Some? ==> job.task.Some?)
    case DownloadCommit(l) => l.task.None? && job.task.None? && first.None?
    case UploadCommit(l) => l.task.None? && job.task.None? && first.None?
    case UploadCall(l) => l.task.None? && job.task.None? && first.None?
    case UrlCommit(l, url) => l.task.None? && job.task.None? && first.None?
    case DispatchCommit(l) => l.task.None? && job.task.None? && first.None?
    case SubmitCall(l) => job.task.None? && job.status == Submitted && first == Some(w)
    case TaskCommit(l, task) => job.task.None? && job.status == Submitted && first == Some(w)
    case Poll(l) => job.task.Some?
    case PollCommit(l) => job.task.Some?
    case Publish(l) => job.task.Some?
    case FailWrite(status, attempts, retryAt, code) =>
      first.Some? && job.task.None? ==> status == NeedsReview && UnknownOutcome(Some(code))
    case _ => true
  }

  ghost predicate WorkerOk(job: Job, first: Option<nat>, submits: nat, w: nat, k: Worker) {
    && HasClaim(k)
    && (k.claim.Some? ==> k.claim.value.owner == w && k.claim.value.epoch <= job.lease.epoch)
    && (k.pc.Start? || k.pc.Reset? || k.pc.Claiming? ==> k.claim.None?)
    && (k.pc.Reset? ==> k.manual && job.status == NeedsReview && !UnknownOutcome(job.code))
    && (k.pc.SubmitCall? ==> first == Some(w) && submits == 0)
    && (k.pc.FailWrite? ==> k.pc.status == RetryWait || k.pc.status == NeedsReview)
    && (Holds(job, w, k) && Working(k.pc) ==> job.status != NeedsReview && PcOk(job, first, w, k.pc))
  }

  ghost predicate OneManual(workers: map<nat, Worker>) {
    forall v, w :: v in workers && w in workers && v != w && workers[v].manual && workers[w].manual ==>
      !Active(workers[v]) || !Active(workers[w])
  }

  ghost predicate Inv(s: Sys) {
    && (forall w :: w in s.workers ==> WorkerOk(s.job, s.first, s.submits, w, s.workers[w]))
    && OneManual(s.workers)
    && (s.first.Some? ==> Settled(s.job))
    && (s.first.None? ==> s.submits == 0)
    && s.submits <= 1
  }

  /** How one step may change the row: a committed task id stays, a committed dispatch stays
      committed, and an unknown outcome without a task id is never cleared. */
  ghost predicate Keeps(s: Sys, t: Sys) {
    && s.submits <= t.submits
    && (s.job.task.Some? ==> t.job.task == s.job.task)
    && (s.first.Some? ==> t.first == s.first)
    && (s.first.Some? && s.job.task.None? && s.job.status == NeedsReview ==>
          t.job.task.None? && t.job.status == NeedsReview && t.job.code == s.job.code)
  }

  /** Worker `w` writes the row under a live claim: nobody else is affected. */
  lemma {:induction false} OthersUnaffected(s: Sys, w: nat, job: Job, first: Option<nat>, submits: nat, x: nat)
    requires Inv(s) && w in s.workers && x in s.workers && x != w
    requires Holds(s.job, w, s.workers[w]) && Working(s.workers[w].pc) && job.lease.epoch == s.job.lease.epoch
    requires job.lease.owner == s.job.lease.owner
    requires (first == s.first && submits == s.submits) || s.first.None? || s.workers[w].pc.SubmitCall?
    ensures WorkerOk(job, first, submits, x, s.workers[x])
  {
    assert WorkerOk(s.job, s.first, s.submits, w, s.workers[w]);
    assert WorkerOk(s.job, s.first, s.submits, x, s.workers[x]);
  }

  /** The shared argument for every transaction with `claim=`. */
  lemma {:induction false} GuardedKeeps(s: Sys, w: nat, job: Job, next: Pc)
    requires Inv(s) && w in s.workers && s.workers[w].claim.Some? && Working(s.workers[w].pc)
    requires job.lease == s.job.lease && Active(s.workers[w].(pc := next))
    requires !next.SubmitCall? && !next.FailWrite? && next !in {Start, Reset, Claiming}
    requires Holds(s.job, w, s.workers[w]) ==>
      && (s.first.Some? ==> Settled(job))
      && (s.job.task.Some? ==> job.task == s.job.task)
      && (Working(next) ==> job.status != NeedsReview && PcOk(job, s.first, w, next))
    ensures Inv(Guarded(s, w, job, next)) && Keeps(s, Guarded(s, w, job, next))
  {
    var t := Guarded(s, w, job, next);
    assert WorkerOk(s.job, s.first, s.submits, w, s.workers[w]);
    if Passes(s.job.lease, s.workers[w].claim.value, s.now) {
      assert Holds(s.job, w, s.workers[w]);
      assert WorkerOk(job, s.first, s.submits, w, t.workers[w]);
      forall x | x in t.workers && x != w ensures WorkerOk(t.job, t.first, t.submits, x, t.workers[x]) {
        OthersUnaffected(s, w, job, s.first, s.submits, x);
      }
    } else {
      assert WorkerOk(t.job, t.first, t.submits, w, t.workers[w]);
    }
    MovedManual(s, w, t.workers[w]);
  }

  lemma {:induction false} MovedManual(s: Sys, w: nat, k: Worker)
    requires w in s.workers && OneManual(s.workers) && k.manual == s.workers[w].manual
    requires Active(k) ==> Active(s.workers[w])
    ensures OneManual(s.workers[w := k])
  {
  }

  /** A step that only moves the worker's own program counter. */
  lemma {:induction false} MoveKeeps(s: Sys, w: nat, next: Pc)
    requires Inv(s) && w in s.workers && Active(s.workers[w])
    requires WorkerOk(s.job, s.first, s.submits, w, s.workers[w].(pc := next))
    ensures Inv(At(s, w, next)) && Keeps(s, At(s, w, next))
  {
    MovedManual(s, w, s.workers[w].(pc := next));
  }

  lemma {:induction false} ResetKeeps(s: Sys, w: nat)
    requires Inv(s) && w in s.workers && s.workers[w].pc == Reset
    ensures Inv(ResetStep(s, w)) && Keeps(s, ResetStep(s, w))
  {
    var t := ResetStep(s, w);
    assert WorkerOk(s.job, s.first, s.submits, w, s.workers[w]);
    MovedManual(s, w, t.workers[w]);
    forall x | x in t.workers ensures WorkerOk(t.job, t.first, t.submits, x, t.workers[x]) {
      assert WorkerOk(s.job, s.first, s.submits, x, s.workers[x]);
    }
  }

  lemma {:induction false} ClaimKeeps(s: Sys, w: nat)
    requires Inv(s) && w in s.workers && s.workers[w].pc == Claiming
    ensures Inv(ClaimStep(s, w)) && Keeps(s, ClaimStep(s, w))
  {
    var t := ClaimStep(s, w);
    assert WorkerOk(s.job, s.first, s.submits, w, s.workers[w]);
    MovedManual(s, w, t.workers[w]);
    forall x | x in t.workers ensures WorkerOk(t.job, t.first, t.submits, x, t.workers[x]) {
      assert WorkerOk(s.job, s.first, s.submits, x, s.workers[x]);
    }
  }

  lemma {:induction false} DispatchKeeps(s: Sys, w: nat, o: Oracle)
    requires Inv(s) && w in s.workers && s.workers[w].pc.DispatchCommit?
    ensures Inv(Step(s, Act(w, o), true)) && Keeps(s, Step(s, Act(w, o), true))
  {
    var t := Step(s, Act(w, o), true);
    assert WorkerOk(s.job, s.first, s.submits, w, s.workers[w]);
    MovedManual(s, w, t.workers[w]);
    if Passes(s.job.lease, s.workers[w].claim.value, s.now) {
      assert Holds(s.job, w, s.workers[w]);
      forall x | x in t.workers && x != w ensures WorkerOk(t.job, t.first, t.submits, x, t.workers[x]) {
        OthersUnaffected(s, w, t.job, t.first, t.submits, x);
      }
      assert WorkerOk(t.job, t.first, t.submits, w, t.workers[w]);
    } else {
      assert WorkerOk(t.job, t.first, t.submits, w, t.workers[w]);
    }
  }

  lemma {:induction false} SubmitKeeps(s: Sys, w: nat, o: Oracle)
    requires Inv(s) && w in s.workers && s.workers[w].pc.SubmitCall?
    ensures Inv(Step(s, Act(w, o), true)) && Keeps(s, Step(s, Act(w, o), true))
  {
    var t := Step(s, Act(w, o), true);
    assert WorkerOk(s.job, s.first, s.submits, w, s.workers[w]);
    MovedManual(s, w, t.workers[w]);
    forall x | x in t.workers ensures WorkerOk(t.job, t.first, t.submits, x, t.workers[x]) {
      assert WorkerOk(s.job, s.first, s.submits, x, s.workers[x]);
    }
  }

  lemma {:induction false} PublishKeeps(s: Sys, w: nat, l: Local, o: Oracle)
    requires Inv(s) && w in s.workers && s.workers[w].pc == Publish(l)
    ensures Inv(PublishStep(s, w, l, o)) && Keeps(s, PublishStep(s, w, l, o))
  {
    assert WorkerOk(s.job, s.first, s.submits, w, s.workers[w]);
    if !o.ok {
      MoveKeeps(s, w, if o.pipelineError then FailRead(l, o.retryable, o.code) else Releasing);
    } else {
      MoveKeeps(s, w, Releasing);
      GuardedKeeps(s, w, s.job.(status := Completed, retryAt := None, code := None), Releasing);
    }
  }

  lemma {:induction false} ReleaseKeeps(s: Sys, w: nat)
    requires Inv(s) && w in s.workers && s.workers[w].pc == Releasing
    ensures Inv(ReleaseStep(s, w)) && Keeps(s, ReleaseStep(s, w))
  {
    var t := ReleaseStep(s, w);
    assert WorkerOk(s.job, s.first, s.submits, w, s.workers[w]);
    MovedManual(s, w, t.workers[w]);
    forall x | x in t.workers ensures WorkerOk(t.job, t.first, t.submits, x, t.workers[x]) {
      assert WorkerOk(s.job, s.first, s.submits, x, s.workers[x]);
    }
  }

  lemma {:induction false} TriggerKeeps(s: Sys, w: nat, l: Local, o: Oracle)
    requires Inv(s) && w in s.workers && s.workers[w].pc == SetTrigger(l)
    ensures Inv(TriggerStep(s, w, l, o)) && Keeps(s, TriggerStep(s, w, l, o))
  {
    assert WorkerOk(s.job, s.first, s.submits, w, s.workers[w]);
    var l' := l.(manual := l.manual || s.workers[w].manual);
    var next := if l.task.None? && !o.ok then FailRead(l', o.retryable, o.code) else AfterTrigger(l', o.yes);
    if s.workers[w].manual && !l.manual {
      GuardedKeeps(s, w, s.job.(manual := true), next);
    } else {
      MoveKeeps(s, w, next);
    }
  }

  lemma {:induction false} RaisedKeeps(s: Sys, w: nat, l: Local, o: Oracle)
    requires Inv(s) && w in s.workers && Working(s.workers[w].pc)
    ensures Inv(Raised(s, w, l, o)) && Keeps(s, Raised(s, w, l, o))
  {
    assert WorkerOk(s.job, s.first, s.submits, w, s.workers[w]);
    MoveKeeps(s, w, if o.pipelineError then FailRead(l, o.retryable, o.code) else Releasing);
  }

  lemma {:induction false} DownloadKeeps(s: Sys, w: nat, o: Oracle)
    requires Inv(s) && w in s.workers && s.workers[w].pc.DownloadCommit?
    ensures Inv(Step(s, Act(w, o), true)) && Keeps(s, Step(s, Act(w, o), true))
  {
    assert WorkerOk(s.job, s.first, s.submits, w, s.workers[w]);
    var l := s.workers[w].pc.l;
    GuardedKeeps(s, w, s.job.(status := Downloading),
                 if o.ok then UploadCommit(l) else if o.pipelineError then FailRead(l, o.retryable, o.code) else Releasing);
  }

  lemma {:induction false} UploadKeeps(s: Sys, w: nat, o: Oracle)
    requires Inv(s) && w in s.workers
    requires var pc := s.workers[w].pc; pc.DownloadCommit? || pc.UploadCommit? || pc.UploadCall? || pc.UrlCommit?
    ensures Inv(Step(s, Act(w, o), true)) && Keeps(s, Step(s, Act(w, o), true))
  {
    assert WorkerOk(s.job, s.first, s.submits, w, s.workers[w]);
    match s.workers[w].pc
    case DownloadCommit(l) => DownloadKeeps(s, w, o);
    case UploadCommit(l) => GuardedKeeps(s, w, s.job.(status := Uploading), UploadCall(l));
    case UploadCall(l) => if o.ok { MoveKeeps(s, w, UrlCommit(l, o.id)); } else { RaisedKeeps(s, w, l, o); }
    case UrlCommit(l, url) => GuardedKeeps(s, w, s.job.(url := Some(url)), DispatchCommit(l.(url := Some(url))));
  }

  lemma {:induction false} PollKeeps(s: Sys, w: nat, o: Oracle)
    requires Inv(s) && w in s.workers
    requires var pc := s.workers[w].pc; pc.TaskCommit? || pc.Poll? || pc.PollCommit?
    ensures Inv(Step(s, Act(w, o), true)) && Keeps(s, Step(s, Act(w, o), true))
  {
    assert WorkerOk(s.job, s.first, s.submits, w, s.workers[w]);
    match s.workers[w].pc
    case TaskCommit(l, task) =>
      GuardedKeeps(s, w, s.job.(status := Submitted, task := Some(task), code := None), Poll(l.(task := Some(task))));
    case Poll(l) => if !o.ok { RaisedKeeps(s, w, l, o); } else { MoveKeeps(s, w, if o.yes then Publish(l) else PollCommit(l)); }
    case PollCommit(l) => GuardedKeeps(s, w, s.job.(status := Processing), if o.yes then Poll(l) else Releasing);
  }

  lemma {:induction false} FailReadKeeps(s: Sys, w: nat, o: Oracle)
    requires Inv(s) && w in s.workers && s.workers[w].pc.FailRead?
    ensures Inv(Step(s, Act(w, o), true)) && Keeps(s, Step(s, Act(w, o), true))
  {
    assert WorkerOk(s.job, s.first, s.submits, w, s.workers[w]);
    var pc := s.workers[w].pc;
    MoveKeeps(s, w, FailReadStep(s, w, pc.l, pc.retryable, pc.code, o).workers[w].pc);
  }

  lemma {:induction false} FailWriteKeeps(s: Sys, w: nat, o: Oracle)
    requires Inv(s) && w in s.workers && s.workers[w].pc.FailWrite?
    ensures Inv(Step(s, Act(w, o), true)) && Keeps(s, Step(s, Act(w, o), true))
  {
    assert WorkerOk(s.job, s.first, s.submits, w, s.workers[w]);
    var pc := s.workers[w].pc;
    GuardedKeeps(s, w, s.job.(status := pc.status, attempts := pc.attempts, retryAt := pc.retryAt, code := Some(pc.code)), Releasing);
  }

  /** Up to the upload nothing has been sent. */
  predicate Early(pc: Pc) {
    pc.Start? || pc.Reset? || pc.Claiming? || pc.Reading? || pc.ReadingJob? || pc.ClaimedReset? || pc.SetTrigger?
  }

  lemma {:induction false} EarlyKeeps(s: Sys, w: nat, o: Oracle)
    requires Inv(s) && w in s.workers && Early(s.workers[w].pc)
    ensures Inv(Step(s, Act(w, o), true)) && Keeps(s, Step(s, Act(w, o), true))
  {
    assert WorkerOk(s.job, s.first, s.submits, w, s.workers[w]);
    match s.workers[w].pc
    case Start => MoveKeeps(s, w, StartStep(s, w, o).workers[w].pc);
    case Reset => ResetKeeps(s, w);
    case Claiming => ClaimKeeps(s, w);
    case SetTrigger(l) => TriggerKeeps(s, w, l, o);
    case _ => ReadKeeps(s, w, o);
  }

  lemma {:induction false} ReadKeeps(s: Sys, w: nat, o: Oracle)
    requires Inv(s) && w in s.workers && (s.workers[w].pc.Reading? || s.workers[w].pc.ReadingJob? || s.workers[w].pc.ClaimedReset?)
    ensures Inv(Step(s, Act(w, o), true)) && Keeps(s, Step(s, Act(w, o), true))
  {
    assert WorkerOk(s.job, s.first, s.submits, w, s.workers[w]);
    match s.workers[w].pc
    case Reading => MoveKeeps(s, w, ReadingJob(s.raw));
    case ReadingJob(raw) => MoveKeeps(s, w, ReadStep(s, w, raw, o).workers[w].pc);
    case ClaimedReset(l) =>
      GuardedKeeps(s, w, s.job.(status := Pending, attempts := 0, retryAt := None, code := None, manual := true),
                   SetTrigger(l.(attempts := 0, manual := true)));
  }

  lemma {:induction false} ActKeeps(s: Sys, w: nat, o: Oracle)
    requires Inv(s) && w in s.workers
    ensures Inv(Step(s, Act(w, o), true)) && Keeps(s, Step(s, Act(w, o), true))
  {
    match s.workers[w].pc
    case DownloadCommit(l) => UploadKeeps(s, w, o);
    case UploadCommit(l) => UploadKeeps(s, w, o);
    case UploadCall(l) => UploadKeeps(s, w, o);
    case UrlCommit(l, url) => UploadKeeps(s, w, o);
    case DispatchCommit(l) => DispatchKeeps(s, w, o);
    case SubmitCall(l) => SubmitKeeps(s, w, o);
    case TaskCommit(l, task) => PollKeeps(s, w, o);
    case Poll(l) => PollKeeps(s, w, o);
    case PollCommit(l) => PollKeeps(s, w, o);
    case Publish(l) => PublishKeeps(s, w, l, o);
    case FailRead(l, retryable, code) => FailReadKeeps(s, w, o);
    case FailWrite(status, attempts, retryAt, code) => FailWriteKeeps(s, w, o);
    case Releasing => ReleaseKeeps(s, w);
    case Ended =>
    case Dead =>
    case _ => EarlyKeeps(s, w, o);
  }

  lemma {:induction false} StepKeeps(s: Sys, e: Event)
    requires Inv(s)
    ensures Inv(Step(s, e, true)) && Keeps(s, Step(s, e, true))
  {
    hide Inv, Keeps, WorkerStep;
    if e.Act? && e.w in s.workers {
      ActKeeps(s, e.w, e.o);
    } else {
      OutsideKeeps(s, e);
    }
  }

  /** Whatever is not a worker's own step: time, spawning, crashes, heartbeats, the raw subtitle. */
  lemma {:induction false} OutsideKeeps(s: Sys, e: Event)
    requires Inv(s) && !(e.Act? && e.w in s.workers)
    ensures Inv(Step(s, e, true)) && Keeps(s, Step(s, e, true))
  {
    hide WorkerStep;
    var t := Step(s, e, true);
    match e
    case Tick(d) =>
    case Spawn(w, manual) =>
      forall x | x in t.workers ensures WorkerOk(t.job, t.first, t.submits, x, t.workers[x]) {
        if x in s.workers { assert WorkerOk(s.job, s.first, s.submits, x, s.workers[x]); }
      }
    case Crash(w) =>
      if w in s.workers {
        assert WorkerOk(s.job, s.first, s.submits, w, s.workers[w]);
        MovedManual(s, w, s.workers[w].(pc := Dead));
      }
    case Beat(w) =>
      forall x | x in t.workers ensures WorkerOk(t.job, t.first, t.submits, x, t.workers[x]) {
        assert WorkerOk(s.job, s.first, s.submits, x, s.workers[x]);
      }
    case SetRaw(value) =>
    case Act(w, o) =>
  }

  /** The event is not an action, a start or the death of worker `w`. */
  predicate Foreign(e: Event, w: nat) {
    match e
    case Spawn(x, _) => x != w
    case Crash(x) => x != w
    case Act(x, _) => x != w
    case _ => true
  }

  lemma {:induction false} StepKeepsOther(s: Sys, e: Event, w: nat)
    requires w in s.workers && Foreign(e, w)
    ensures w in Step(s, e, true).workers && Step(s, e, true).workers[w] == s.workers[w]
  {
  }

  lemma {:induction false} RunKeeps(s: Sys, es: seq<Event>)
    requires Inv(s)
    ensures Inv(Run(s, es, true)) && Keeps(s, Run(s, es, true))
    decreases |es|
  {
    if es != [] {
      StepKeeps(s, es[0]);
      RunKeeps(Step(s, es[0], true), es[1..]);
    }
  }

  lemma {:induction false} RunAppend(s: Sys, es: seq<Event>, fs: seq<Event>, locked: bool)
    ensures Run(s, es + fs, locked) == Run(Run(s, es, locked), fs, locked)
    decreases |es|
  {
    if es == [] {
      assert es + fs == fs;
    } else {
      assert (es + fs)[1..] == es[1..] + fs;
      RunAppend(Step(s, es[0], locked), es[1..], fs, locked);
    }
  }

  /** Whatever row the run starts from, however workers are interleaved, stalled, killed or
      fenced, `provider.submit` is called at most once. */
  lemma {:induction false} AtMostOneSubmit(s: Sys, es: seq<Event>)
    requires Initial(s)
    ensures Run(s, es, true).submits <= 1
  {
    RunKeeps(s, es);
  }

  /** A committed task id is never cleared or replaced. */
  lemma {:induction false} TaskIdIsPermanent(s: Sys, es: seq<Event>, fs: seq<Event>)
    requires Initial(s) && Run(s, es, true).job.task.Some?
    ensures Run(s, es + fs, true).job.task == Run(s, es, true).job.task
  {
    RunKeeps(s, es);
    RunAppend(s, es, fs, true);
    RunKeeps(Run(s, es, true), fs);
  }

  /** Once a worker has committed "submitted", every later state has a task id, is still
      submitted, or waits for review with an unknown-outcome code; and from the moment it
      waits for review without a task id, no retry, automatic or manual, changes that. */
  lemma {:induction false} DispatchIsNeverForgotten(s: Sys, es: seq<Event>, fs: seq<Event>)
    requires Initial(s) && Run(s, es, true).first.Some?
    ensures var t, u := Run(s, es, true), Run(s, es + fs, true);
      && Settled(u.job) && u.first == t.first
      && (t.job.task.None? && t.job.status == NeedsReview ==>
            u.job.status == NeedsReview && u.job.code == t.job.code && UnknownOutcome(u.job.code) && u.job.task.None?)
  {
    RunKeeps(s, es);
    RunAppend(s, es, fs, true);
    RunKeeps(Run(s, es, true), fs);
  }

  /** One more event at the end of a run. */
  lemma {:induction false} Next(s: Sys, es: seq<Event>, t: Sys, e: Event) returns (fs: seq<Event>, u: Sys)
    requires t == Run(s, es, false)
    ensures u == Step(t, e, false) && u == Run(s, fs, false)
  {
    fs, u := es + [e], Step(t, e, false);
    RunAppend(s, es, [e], false);
    assert Run(u, [e][1..], false) == u;
  }

  /** One more step of worker `w` when everything goes well outside. */
  lemma {:induction false} NextAct(s: Sys, es: seq<Event>, t: Sys, w: nat) returns (fs: seq<Event>, u: Sys, o: Oracle)
    requires t == Run(s, es, false) && w in t.workers && HasClaim(t.workers[w])
    ensures o == Oracle(true, false, false, Other(0), 9, None, true, 0)
    ensures u == WorkerStep(t, w, o) && u == Run(s, fs, false)
  {
    o := Oracle(true, false, false, Other(0), 9, None, true, 0);
    fs, u := Next(s, es, t, Act(w, o));
  }

  ghost predicate SameOthers(t: Sys, u: Sys, w: nat) {
    u.workers.Keys == t.workers.Keys && forall x :: x in t.workers && x != w ==> u.workers[x] == t.workers[x]
  }

  /** A worker that finds the row pending, unclaimed and already uploaded gets the claim ... */
  lemma {:induction false} ClaimRun(s: Sys, es: seq<Event>, t: Sys, w: nat) returns (fs: seq<Event>, u: Sys)
    requires t == Run(s, es, false) && w in t.workers && t.workers[w] == Worker(true, Claiming, None)
    requires t.job.status == Pending && t.job.retryAt.None? && t.job.task.None? && t.job.url.Some? && t.job.lease.owner.None?
    ensures u == Run(s, fs, false) && SameOthers(t, u, w) && u.now == t.now && u.submits == t.submits
    ensures u.job.(lease := t.job.lease) == t.job && u.job.lease == Lease(Some(w), t.job.lease.epoch + 1, Some(t.now + 120))
    ensures u.workers[w].claim == Some(Claim(w, u.job.lease.epoch)) && u.workers[w].manual
    ensures u.workers[w].pc.SetTrigger? && u.workers[w].pc.l.task == u.job.task && u.workers[w].pc.l.url == u.job.url
  {
    var o;
    fs, u, o := NextAct(s, es, t, w);
    assert u.workers[w].pc == Reading;
    fs, u, o := NextAct(s, fs, u, w);
    assert u.workers[w].pc.ReadingJob?;
    fs, u, o := NextAct(s, fs, u, w);
  }

  /** ... and, still holding it, runs up to its call of `provider.submit`. */
  lemma {:induction false} DispatchRun(s: Sys, es: seq<Event>, t: Sys, w: nat) returns (fs: seq<Event>, u: Sys)
    requires t == Run(s, es, false) && w in t.workers && t.workers[w].pc.SetTrigger? && t.workers[w].claim.Some?
    requires Passes(t.job.lease, t.workers[w].claim.value, t.now) && t.job.retryAt.None?
    requires t.job.task.None? && t.workers[w].pc.l.task.None? && t.workers[w].pc.l.url.Some?
    ensures u == Run(s, fs, false) && SameOthers(t, u, w) && u.now == t.now && u.submits == t.submits + 1
    ensures u.job.status == Submitted && u.job.task.None? && u.job.retryAt.None? && u.job.lease == t.job.lease && u.job.url == t.job.url
  {
    var o;
    fs, u, o := NextAct(s, es, t, w);
    assert u.workers[w].pc.DispatchCommit? && u.job.lease == t.job.lease;
    fs, u, o := NextAct(s, fs, u, w);
    assert u.workers[w].pc.SubmitCall? && u.job.lease == t.job.lease;
    fs, u, o := NextAct(s, fs, u, w);
  }

  /** Two retries that both read a row waiting for review; the first one has reset it. */
  lemma {:induction false} TwoRetries(s: Sys) returns (es: seq<Event>, t: Sys)
    requires Initial(s)
    requires s.job == Job(NeedsReview, None, Some(7), 3, None, Some(Other(0)), false, Lease(None, 0, None))
    ensures t == Run(s, es, false) && t.now == s.now && t.submits == 0
    ensures t.workers == map[1 := Worker(true, Claiming, None), 2 := Worker(true, Reset, None)]
    ensures t.job == Job(Pending, None, Some(7), 0, None, None, false, Lease(None, 0, None))
  {
    var o;
    es, t := Next(s, [], s, Spawn(1, true));
    es, t := Next(s, es, t, Spawn(2, true));
    es, t, o := NextAct(s, es, t, 1);
    assert t.workers == map[1 := Worker(true, Reset, None), 2 := Worker(true, Start, None)];
    es, t, o := NextAct(s, es, t, 2);
    assert t.workers == map[1 := Worker(true, Reset, None), 2 := Worker(true, Reset, None)];
    es, t, o := NextAct(s, es, t, 1);
  }

  /** The first retry dies after its call; an automatic worker parks the row for review. */
  lemma {:induction false} ParkRun(s: Sys, es: seq<Event>, t: Sys) returns (fs: seq<Event>, u: Sys)
    requires t == Run(s, es, false) && t.workers.Keys == {1, 2} && t.workers[2] == Worker(true, Reset, None)
    requires Uncertain(t.job) && t.job.status == Submitted && t.job.retryAt.None? && t.job.lease.until == Some(t.now + 120)
    ensures u == Run(s, fs, false) && u.submits == t.submits && u.workers.Keys == {1, 2, 3}
    ensures u.workers[2] == t.workers[2]
    ensures u.job.status == NeedsReview && u.job.code == Some(ExternalResultUnknown) && u.job.lease.owner.None?
    ensures u.job.task.None? && u.job.url == t.job.url && u.job.retryAt.None?
  {
    var o;
    fs, u := Next(s, es, t, Event.Tick(121));
    fs, u := Next(s, fs, u, Spawn(3, false));
    fs, u, o := NextAct(s, fs, u, 3);
    assert u.workers[3] == Worker(false, Claiming, None) && !Busy(u.job.lease, u.now);
    fs, u, o := NextAct(s, fs, u, 3);
  }

  /** The second retry clears the code it never read. */
  lemma {:induction false} StaleReset(s: Sys, es: seq<Event>, t: Sys) returns (fs: seq<Event>, u: Sys)
    requires t == Run(s, es, false) && 2 in t.workers && t.workers[2] == Worker(true, Reset, None) && t.job.lease.owner.None?
    ensures u == Run(s, fs, false) && u.submits == t.submits && u.workers == t.workers[2 := Worker(true, Claiming, None)]
    ensures u.job == t.job.(status := Pending, attempts := 0, retryAt := None, code := None)
  {
    var o;
    fs, u, o := NextAct(s, es, t, 2);
  }

  /** The run up to the second retry's claim. */
  lemma {:induction false} StaleRetryClears(s: Sys) returns (es: seq<Event>, t: Sys)
    requires Initial(s)
    requires s.job == Job(NeedsReview, None, Some(7), 3, None, Some(Other(0)), false, Lease(None, 0, None))
    ensures t == Run(s, es, false) && t.submits == 1 && 2 in t.workers && t.workers[2] == Worker(true, Claiming, None)
    ensures t.job.status == Pending && t.job.retryAt.None? && t.job.task.None? && t.job.url.Some? && t.job.lease.owner.None?
  {
    es, t := TwoRetries(s);
    es, t := ClaimRun(s, es, t, 1);
    es, t := DispatchRun(s, es, t, 1);
    es, t := ParkRun(s, es, t);
    es, t := StaleReset(s, es, t);
  }

  /** Two manual retries that do not share the process lock.  Both read a row that waits for
      review with an ordinary error; the first retries, dispatches and stalls for good; an
      automatic worker parks the row with an unknown outcome; then the second retry, still
      acting on what it read at the start, clears that code and dispatches again. */
  lemma {:induction false} LockIsNeeded(s: Sys) returns (es: seq<Event>)
    requires Initial(s)
    requires s.job == Job(NeedsReview, None, Some(7), 3, None, Some(Other(0)), false, Lease(None, 0, None))
    ensures Run(s, es, false).submits == 2
  {
    var t;
    es, t := StaleRetryClears(s);
    es, t := ClaimRun(s, es, t, 2);
    es, t := DispatchRun(s, es, t, 2);
  }
}
