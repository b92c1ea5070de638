/** The leased model stages of `src/shiliu/pipeline.py` (transcript and summary): one
    `pipeline_stages` row, any number of workers, crashes, stalls and lease expiry anywhere,
    and the operator's reset of failed stages. */
module StageDispatch {
  import opened Wrappers
  import opened Leases

  datatype Status = Pending | Processing | RetryWait | NeedsReview | Completed

  datatype Stage = Stage(status: Status, attempts: nat, retryAt: Option<int>, lease: Lease)

  datatype Pc =
    | Claiming
    | ReadingInput                  // read the video's raw subtitle under the claim
    | Reading                       // read the stage again
    | DispatchCommit(seen: nat)     // commit "processing" with one more attempt
    | ProviderCommit(attempt: nat)
    | ModelCall(attempt: nat)
    | Publish(attempt: nat)
    | FailWrite(attempt: nat, retryable: bool)
    | Releasing
    | Ended
    | Dead

  /** `input`: the raw subtitle the worker read; a result is published only over the same one. */
  datatype Worker = Worker(pc: Pc, claim: Option<Claim>, input: Option<nat>)

  /** `ok`: the outside call returned; `pipelineError`: it raised the error the stage catches;
      `yes`: the wall-clock test. */
  datatype Oracle = Oracle(ok: bool, pipelineError: bool, retryable: bool, yes: bool, at: int)

  /** `dispatched` and `called` are history: the workers that committed "processing" and the
      workers that called the model, in order.  `sinceReset` counts the commits since the last
      reset that took effect. */
  datatype Sys = Sys(now: int, stage: Stage, raw: Option<nat>, workers: map<nat, Worker>,
                     dispatched: seq<nat>, called: seq<nat>, sinceReset: nat)

  datatype Event =
    | Tick(d: nat)
    | Spawn(w: nat)
    | Crash(w: nat)
    | Beat(w: nat)
    | ResetFailed
    | SetRaw(value: Option<nat>)
    | Act(w: nat, o: Oracle)

  const LEASE_SECONDS := 120

  function At(s: Sys, w: nat, pc: Pc): Sys
    requires w in s.workers
  {
    s.(workers := s.workers[w := s.workers[w].(pc := pc)])
  }

  function Guarded(s: Sys, w: nat, stage: Stage, next: Pc): Sys
    requires w in s.workers && s.workers[w].claim.Some?
  {
    if Passes(s.stage.lease, s.workers[w].claim.value, s.now) then At(s, w, next).(stage := stage) else At(s, w, Releasing)
  }

  /** `_claim`: a stage left in "processing" has an unknown outcome and goes to review. */
  function ClaimStep(s: Sys, w: nat): Sys
    requires w in s.workers
  {
    if Busy(s.stage.lease, s.now) || s.stage.status == Completed then At(s, w, Ended)
    else if s.stage.retryAt.Some? && s.stage.retryAt.value > s.now then At(s, w, Ended)
    else if s.stage.status == Processing then
      At(s, w, Ended).(stage := s.stage.(status := NeedsReview, lease := Revoked(s.stage.lease)))
    else if s.stage.status == NeedsReview then At(s, w, Ended)
    else
      var lease := Taken(s.stage.lease, w, s.now, LEASE_SECONDS);
      s.(stage := s.stage.(lease := lease), workers := s.workers[w := Worker(ReadingInput, Some(Claim(w, lease.epoch)), None)])
  }

  function InputStep(s: Sys, w: nat): Sys
    requires w in s.workers
  {
    s.(workers := s.workers[w := s.workers[w].(pc := Reading, input := s.raw)])
  }

  /** `_stage_is_due`, then reading the material (which may raise). */
  function ReadStep(s: Sys, w: nat, o: Oracle): Sys
    requires w in s.workers
  {
    At(s, w, if s.stage.status == Completed || s.stage.status == NeedsReview || !o.yes || !o.ok then Releasing
             else DispatchCommit(s.stage.attempts))
  }

  function DispatchStep(s: Sys, w: nat, seen: nat): Sys
    requires w in s.workers && s.workers[w].claim.Some?
  {
    var t := Guarded(s, w, s.stage.(status := Processing, attempts := seen + 1, retryAt := None), ProviderCommit(seen + 1));
    if t.workers[w].pc.ProviderCommit? then t.(dispatched := s.dispatched + [w], sinceReset := s.sinceReset + 1) else t
  }

  /** The video update and the provider's name are two more guarded writes; building the
      provider may raise. */
  function ProviderStep(s: Sys, w: nat, attempt: nat, o: Oracle): Sys
    requires w in s.workers && s.workers[w].claim.Some?
  {
    if o.ok then Guarded(s, w, s.stage, ModelCall(attempt))
    else At(s, w, if o.pipelineError then FailWrite(attempt, o.retryable) else Releasing)
  }

  function CallStep(s: Sys, w: nat, attempt: nat, o: Oracle): Sys
    requires w in s.workers
  {
    At(s, w, if o.ok then Publish(attempt)
             else if o.pipelineError then FailWrite(attempt, o.retryable) else Releasing).(called := s.called + [w])
  }

  /** `_record_stage_failure`: three attempts in all. */
  function FailStep(s: Sys, w: nat, attempt: nat, retryable: bool, o: Oracle): Sys
    requires w in s.workers && s.workers[w].claim.Some?
  {
    var again := retryable && attempt < 3;
    Guarded(s, w, s.stage.(status := if again then RetryWait else NeedsReview, retryAt := if again then Some(o.at) else None), Releasing)
  }

  /** `_publication_guard` and the publication are one transaction. */
  function PublishStep(s: Sys, w: nat): Sys
    requires w in s.workers && s.workers[w].claim.Some?
  {
    if s.raw != s.workers[w].input then At(s, w, Releasing) else Guarded(s, w, s.stage.(status := Completed), Releasing)
  }

  function ReleaseStep(s: Sys, w: nat): Sys
    requires w in s.workers && s.workers[w].claim.Some?
  {
    if Passes(s.stage.lease, s.workers[w].claim.value, s.now)
    then At(s, w, Ended).(stage := s.stage.(lease := Freed(s.stage.lease))) else At(s, w, Ended)
  }

  predicate HasClaim(k: Worker) {
    k.claim.Some? || k.pc in {Claiming, Ended, Dead}
  }

  function WorkerStep(s: Sys, w: nat, o: Oracle): Sys
    requires w in s.workers && HasClaim(s.workers[w])
  {
    match s.workers[w].pc
    case Claiming => ClaimStep(s, w)
    case ReadingInput => InputStep(s, w)
    case Reading => ReadStep(s, w, o)
    case DispatchCommit(seen) => DispatchStep(s, w, seen)
    case ProviderCommit(attempt) => ProviderStep(s, w, attempt, o)
    case ModelCall(attempt) => CallStep(s, w, attempt, o)
    case Publish(attempt) => PublishStep(s, w)
    case FailWrite(attempt, retryable) => FailStep(s, w, attempt, retryable, o)
    case Releasing => ReleaseStep(s, w)
    case Ended => s
    case Dead => s
  }

  predicate Active(k: Worker) {
    !k.pc.Ended? && !k.pc.Dead?
  }

  /** `reset_failed_stages` touches only rows that wait for a retry or for review. */
  function ResetStep(s: Sys): Sys {
    if s.stage.status == RetryWait || s.stage.status == NeedsReview
    then s.(stage := Stage(Pending, 0, None, Revoked(s.stage.lease)), sinceReset := 0) else s
  }

  function Step(s: Sys, e: Event): Sys {
    match e
    case Tick(d) => s.(now := s.now + d)
    case Spawn(w) => if w in s.workers then s else s.(workers := s.workers[w := Worker(Claiming, None, None)])
    case Crash(w) => if w in s.workers then At(s, w, Dead) else s
    case Beat(w) =>
      if w in s.workers && Active(s.workers[w]) && s.workers[w].claim.Some? && Passes(s.stage.lease, s.workers[w].claim.value, s.now)
      then s.(stage := s.stage.(lease := s.stage.lease.(until := Some(s.now + LEASE_SECONDS)))) else s
    case ResetFailed => ResetStep(s)
    case SetRaw(value) => s.(raw := value)
    case Act(w, o) => if w in s.workers && HasClaim(s.workers[w]) then WorkerStep(s, w, o) else s
  }

  function Run(s: Sys, es: seq<Event>): Sys
    decreases |es|
  {
    if es == [] then s else Run(Step(s, es[0]), es[1..])
  }

  /** A fresh row, as `ensure_stage` inserts it. */
  ghost predicate Initial(s: Sys) {
    s.stage == Stage(Pending, 0, None, Lease(None, 0, None)) && s.workers == map[] &&
    s.dispatched == [] && s.called == [] && s.sinceReset == 0
  }

  predicate Holds(stage: Stage, w: nat, k: Worker) {
    k.claim == Some(Claim(w, stage.lease.epoch)) && stage.lease.owner == Some(w)
  }

  ghost predicate Distinct(s: seq<nat>) {
    forall i, j :: 0 <= i < j < |s| ==> s[i] != s[j]
  }

  ghost predicate PcOk(stage: Stage, pc: Pc) {
    match pc
    case ReadingInput => stage.status == Pending || stage.status == RetryWait
    case Reading => stage.status == Pending || stage.status == RetryWait
    case DispatchCommit(seen) => (stage.status == Pending || stage.status == RetryWait) && seen == stage.attempts
    case ProviderCommit(attempt) => stage.status == Processing && stage.attempts == attempt
    case ModelCall(attempt) => stage.status == Processing && stage.attempts == attempt
    case Publish(attempt) => stage.status == Processing && stage.attempts == attempt
    case FailWrite(attempt, retryable) => stage.status == Processing && stage.attempts == attempt
    case _ => true
  }

  /** Has not committed a dispatch yet. */
  predicate Before(pc: Pc) {
    pc.Claiming? || pc.ReadingInput? || pc.Reading? || pc.DispatchCommit?
  }

  ghost predicate WorkerOk(s: Sys, w: nat, k: Worker) {
    && HasClaim(k)
    && (k.claim.Some? ==> k.claim.value.owner == w && k.claim.value.epoch <= s.stage.lease.epoch)
    && (k.pc.Claiming? ==> k.claim.None?)
    && (Before(k.pc) ==> w !in s.dispatched)
    && (Before(k.pc) || k.pc.ProviderCommit? || k.pc.ModelCall? ==> w !in s.called)
    && (k.pc.ProviderCommit? || k.pc.ModelCall? ==> w in s.dispatched)
    && (Holds(s.stage, w, k) ==> PcOk(s.stage, k.pc))
  }

  ghost predicate Inv(s: Sys) {
    && (forall w :: w in s.workers ==> WorkerOk(s, w, s.workers[w]))
    && s.sinceReset == s.stage.attempts <= 3
    && (s.stage.status == Pending || s.stage.status == RetryWait ==> s.stage.attempts <= 2)
    && (s.stage.status == Processing ==> s.stage.retryAt.None?)
    && Distinct(s.dispatched) && Distinct(s.called)
    && (forall i :: 0 <= i < |s.dispatched| ==> s.dispatched[i] in s.workers)
    && (forall i :: 0 <= i < |s.called| ==> s.called[i] in s.dispatched)
  }

  lemma {:induction false} OthersUnaffected(s: Sys, t: Sys, w: nat, x: nat)
    requires Inv(s) && w in s.workers && x in s.workers && x != w && x in t.workers && t.workers[x] == s.workers[x]
    requires s.stage.lease.epoch <= t.stage.lease.epoch
    requires t.stage == s.stage || !Holds(t.stage, x, s.workers[x])
    requires t.dispatched == s.dispatched || t.dispatched == s.dispatched + [w]
    requires t.called == s.called || t.called == s.called + [w]
    ensures WorkerOk(t, x, t.workers[x])
  {
    assert WorkerOk(s, x, s.workers[x]);
  }

  lemma {:induction false} GuardedKeeps(s: Sys, w: nat, stage: Stage, next: Pc)
    requires Inv(s) && w in s.workers && s.workers[w].claim.Some? && stage.lease == s.stage.lease
    requires stage.attempts == s.stage.attempts
    requires Holds(s.stage, w, s.workers[w]) ==>
      && (stage.status == Pending || stage.status == RetryWait ==> stage.attempts <= 2)
      && (stage.status == Processing ==> stage.retryAt.None?)
      && PcOk(stage, next)
    requires !Before(next) && (next.ModelCall? ==> s.workers[w].pc.ProviderCommit?) && !next.ProviderCommit?
    ensures Inv(Guarded(s, w, stage, next))
  {
    var t := Guarded(s, w, stage, next);
    assert WorkerOk(s, w, s.workers[w]);
    forall x | x in t.workers && x != w ensures WorkerOk(t, x, t.workers[x]) {
      OthersUnaffected(s, t, w, x);
    }
    assert WorkerOk(t, w, t.workers[w]);
  }

  lemma {:induction false} MoveKeeps(s: Sys, w: nat, next: Pc)
    requires Inv(s) && w in s.workers && WorkerOk(s, w, s.workers[w].(pc := next))
    ensures Inv(At(s, w, next))
  {
    var t := At(s, w, next);
    assert WorkerOk(t, w, t.workers[w]);
    forall x | x in t.workers && x != w ensures WorkerOk(t, x, t.workers[x]) {
      OthersUnaffected(s, t, w, x);
    }
  }

  lemma {:induction false} DispatchKeeps(s: Sys, w: nat, seen: nat)
    requires Inv(s) && w in s.workers && s.workers[w].pc == DispatchCommit(seen)
    ensures Inv(DispatchStep(s, w, seen))
  {
    var t := DispatchStep(s, w, seen);
    assert WorkerOk(s, w, s.workers[w]);
    forall x | x in t.workers && x != w ensures WorkerOk(t, x, t.workers[x]) {
      OthersUnaffected(s, t, w, x);
    }
    assert WorkerOk(t, w, t.workers[w]);
    assert forall x :: x in s.dispatched ==> x in t.dispatched;
  }

  lemma {:induction false} CallKeeps(s: Sys, w: nat, attempt: nat, o: Oracle)
    requires Inv(s) && w in s.workers && s.workers[w].pc == ModelCall(attempt)
    ensures Inv(CallStep(s, w, attempt, o))
  {
    var t := CallStep(s, w, attempt, o);
    assert WorkerOk(s, w, s.workers[w]);
    forall x | x in t.workers && x != w ensures WorkerOk(t, x, t.workers[x]) {
      OthersUnaffected(s, t, w, x);
    }
    assert WorkerOk(t, w, t.workers[w]);
  }

  lemma {:induction false} ClaimKeeps(s: Sys, w: nat)
    requires Inv(s) && w in s.workers && s.workers[w].pc == Claiming
    ensures Inv(ClaimStep(s, w))
  {
    var t := ClaimStep(s, w);
    assert WorkerOk(s, w, s.workers[w]);
    forall x | x in t.workers && x != w ensures WorkerOk(t, x, t.workers[x]) {
      assert WorkerOk(s, x, s.workers[x]);
      OthersUnaffected(s, t, w, x);
    }
    assert WorkerOk(t, w, t.workers[w]);
  }

  lemma {:induction false} ActKeeps(s: Sys, w: nat, o: Oracle)
    requires Inv(s) && w in s.workers
    ensures Inv(Step(s, Act(w, o)))
  {
    assert WorkerOk(s, w, s.workers[w]);
    match s.workers[w].pc
    case Claiming => ClaimKeeps(s, w);
    case ReadingInput => InputKeeps(s, w);
    case Reading => MoveKeeps(s, w, ReadStep(s, w, o).workers[w].pc);
    case DispatchCommit(seen) => DispatchKeeps(s, w, seen);
    case ProviderCommit(attempt) =>
      if o.ok { GuardedKeeps(s, w, s.stage, ModelCall(attempt)); }
      else { MoveKeeps(s, w, if o.pipelineError then FailWrite(attempt, o.retryable) else Releasing); }
    case ModelCall(attempt) => CallKeeps(s, w, attempt, o);
    case Publish(attempt) =>
      MoveKeeps(s, w, Releasing);
      GuardedKeeps(s, w, s.stage.(status := Completed), Releasing);
    case FailWrite(attempt, retryable) =>
      var again := retryable && attempt < 3;
      GuardedKeeps(s, w, s.stage.(status := if again then RetryWait else NeedsReview, retryAt := if again then Some(o.at) else None), Releasing);
    case Releasing => ReleaseKeeps(s, w);
    case Ended =>
    case Dead =>
  }

  lemma {:induction false} InputKeeps(s: Sys, w: nat)
    requires Inv(s) && w in s.workers && s.workers[w].pc == ReadingInput && HasClaim(s.workers[w])
    ensures Inv(InputStep(s, w))
  {
    var t := InputStep(s, w);
    assert WorkerOk(s, w, s.workers[w]);
    forall x | x in t.workers ensures WorkerOk(t, x, t.workers[x]) {
      assert WorkerOk(s, x, s.workers[x]);
    }
  }

  lemma {:induction false} ReleaseKeeps(s: Sys, w: nat)
    requires Inv(s) && w in s.workers && s.workers[w].pc == Releasing && HasClaim(s.workers[w])
    ensures Inv(ReleaseStep(s, w))
  {
    var t := ReleaseStep(s, w);
    forall x | x in t.workers ensures WorkerOk(t, x, t.workers[x]) {
      assert WorkerOk(s, x, s.workers[x]);
    }
  }

  lemma {:induction false} StepKeeps(s: Sys, e: Event)
    requires Inv(s)
    ensures Inv(Step(s, e))
  {
    var t := Step(s, e);
    match e
    case Act(w, o) => if w in s.workers { ActKeeps(s, w, o); }
    case _ =>
      forall x | x in t.workers ensures WorkerOk(t, x, t.workers[x]) {
        if x in s.workers { assert WorkerOk(s, x, s.workers[x]); }
      }
  }

  lemma {:induction false} RunKeeps(s: Sys, es: seq<Event>)
    requires Inv(s)
    ensures Inv(Run(s, es))
    decreases |es|
  {
    if es != [] {
      StepKeeps(s, es[0]);
      RunKeeps(Step(s, es[0]), es[1..]);
    }
  }

  /** Between two resets at most three dispatches are committed; every worker commits and
      calls at most once, and it calls the model only after its own commit. */
  lemma {:induction false} AtMostThreeDispatches(s: Sys, es: seq<Event>)
    requires Initial(s)
    ensures var t := Run(s, es);
      && t.sinceReset <= 3
      && Distinct(t.dispatched) && Distinct(t.called)
      && forall i :: 0 <= i < |t.called| ==> t.called[i] in t.dispatched
  {
    RunKeeps(s, es);
  }

  /** The row was dispatched and nobody is left who may record the outcome. */
  ghost predicate Orphaned(s: Sys) {
    && (s.stage.status == Processing || s.stage.status == NeedsReview)
    && (forall w :: w in s.workers && Holds(s.stage, w, s.workers[w]) ==>
          s.workers[w].pc.Dead? || s.workers[w].pc.Releasing? || s.workers[w].pc.Ended?)
  }

  lemma {:induction false} OrphanStep(s: Sys, e: Event)
    requires Inv(s) && Orphaned(s) && e != ResetFailed
    ensures Orphaned(Step(s, e)) && Step(s, e).dispatched == s.dispatched
    ensures s.stage.status == NeedsReview ==> Step(s, e).stage.status == NeedsReview
  {
    if e.Act? && e.w in s.workers {
      assert WorkerOk(s, e.w, s.workers[e.w]);
    }
  }

  /** A crash with unknown outcome: however many workers come by later, none of them ever
      dispatches the stage again until an operator resets it; and the first claim that finds
      the lease gone parks it for review. */
  lemma {:induction false} UnknownOutcomeIsNeverRetried(s: Sys, es: seq<Event>)
    requires Inv(s) && Orphaned(s) && ResetFailed !in es
    ensures var t := Run(s, es);
      && t.dispatched == s.dispatched
      && (t.stage.status == Processing || t.stage.status == NeedsReview)
      && (s.stage.status == NeedsReview ==> t.stage.status == NeedsReview)
    decreases |es|
  {
    if es != [] {
      StepKeeps(s, es[0]);
      OrphanStep(s, es[0]);
      UnknownOutcomeIsNeverRetried(Step(s, es[0]), es[1..]);
    }
  }

  lemma {:induction false} ClaimOfUnknownParks(s: Sys, w: nat, o: Oracle)
    requires Inv(s) && s.stage.status == Processing && !Busy(s.stage.lease, s.now)
    requires w in s.workers && s.workers[w].pc == Claiming
    ensures var t := Step(s, Act(w, o));
      t.stage.status == NeedsReview && t.workers[w].pc == Ended && t.dispatched == s.dispatched && Orphaned(t)
  {
    var t := Step(s, Act(w, o));
    forall x | x in t.workers ensures !Holds(t.stage, x, t.workers[x]) {
      assert WorkerOk(s, x, s.workers[x]);
    }
  }
}
