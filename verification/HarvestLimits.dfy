/** The two counts a harvest run is held to: requests between checkpoints, and targets ended in one
    run. */
module HarvestLimits {
  import opened Wrappers
  import opened Harvest
  import opened HarvestSafety
  import opened HarvestOutcomes

  /** How many targets the log ended. */
  function Ends(log: seq<Event>): nat {
    if log == [] then 0 else Ends(log[..|log| - 1]) + if Terminal(log[|log| - 1]) then 1 else 0
  }

  /** At no time were more than `limit` requests sent since the checkpoint before. */
  ghost predicate Spaced(log: seq<Event>, limit: nat) {
    forall n :: 0 <= n <= |log| ==> CallsSince(log[..n]) <= limit
  }

  /** The state counts what its log holds; `ended` targets were over when the loop began. */
  ghost predicate Counting(cfg: Config, st: St, ended: nat) {
    && Spaced(st.log, cfg.checkpointRequests)
    && st.calls == CallsSince(st.log)
    && Ends(st.log) == ended + st.resolved
  }

  /** The checkpoint that was due has been made. */
  ghost predicate Paced(cfg: Config, st: St, ended: nat) {
    Counting(cfg, st, ended) && st.calls < cfg.checkpointRequests
  }

  lemma {:induction false} OneMore(log: seq<Event>, e: Event, limit: nat)
    requires Spaced(log, limit)
    ensures CallsSince(log + [e]) == if e.Checkpoint? then 0 else CallsSince(log) + if e.Started? then 1 else 0
    ensures Ends(log + [e]) == Ends(log) + if Terminal(e) then 1 else 0
    ensures CallsSince(log + [e]) <= limit ==> Spaced(log + [e], limit)
  {
    var more := log + [e];
    assert more[..|log|] == log && more[..|more|] == more;
    if CallsSince(more) <= limit {
      forall n | 0 <= n <= |more| ensures CallsSince(more[..n]) <= limit {
        if n <= |log| {
          assert more[..n] == log[..n];
        }
      }
    }
  }

  lemma {:induction false} CallsAreFew(log: seq<Event>, limit: nat)
    requires Spaced(log, limit)
    ensures CallsSince(log) <= limit
  {
    assert log[..|log|] == log;
  }

  // ---- the writes of the loop ------------------------------------------------------------------

  lemma {:induction false} CheckPaces(cfg: Config, st: St, ended: nat, force: bool)
    requires Counting(cfg, st, ended) && cfg.checkpointRequests > 0
    ensures Paced(cfg, Check(cfg, st, force), ended) && Check(cfg, st, force).resolved == st.resolved
  {
    hide Spaced, CallsSince, Ends;
    OneMore(st.log, Checkpoint, cfg.checkpointRequests);
  }

  lemma {:induction false} StartCounts(cfg: Config, st: St, ended: nat, v: nat, attempt: nat)
    requires v in st.mem && Paced(cfg, st, ended)
    ensures Counting(cfg, Start(st, v, attempt), ended) && Start(st, v, attempt).resolved == st.resolved
  {
    hide Spaced, CallsSince, Ends;
    OneMore(st.log, Started(v, attempt), cfg.checkpointRequests);
  }

  lemma {:induction false} FailCounts(cfg: Config, st: St, ended: nat, v: nat, attempt: nat, kind: Kind)
    requires v in st.mem && Counting(cfg, st, ended)
    ensures Counting(cfg, Fail(st, v, attempt, kind), ended) && Fail(st, v, attempt, kind).resolved == st.resolved
  {
    hide Spaced, CallsSince, Ends;
    CallsAreFew(st.log, cfg.checkpointRequests);
    OneMore(st.log, Failed(v, attempt, kind), cfg.checkpointRequests);
  }

  lemma {:induction false} HaltCounts(cfg: Config, st: St, ended: nat, v: nat, attempt: nat, reason: Reason, wait: bool)
    requires v in st.mem && Counting(cfg, st, ended) && cfg.checkpointRequests > 0
    ensures var r := Halt(cfg, st, v, attempt, reason, wait); Counting(cfg, r.0, ended) && r.0.resolved == st.resolved && r.1 == Halted
  {
    hide Spaced, CallsSince, Ends;
    CallsAreFew(st.log, cfg.checkpointRequests);
    var e := Stopped(v, attempt, reason, wait);
    OneMore(st.log, e, cfg.checkpointRequests);
    CheckPaces(cfg, st.(log := st.log + [e], mem := st.mem[v := st.mem[v].(latest := Seen(e))]), ended, true);
  }

  lemma {:induction false} ResolveCounts(cfg: Config, st: St, ended: nat, v: nat, e: Event)
    requires v in st.mem && Counting(cfg, st, ended) && Terminal(e)
    ensures Counting(cfg, Resolve(st, v, e), ended) && Resolve(st, v, e).resolved == st.resolved + 1
  {
    hide Spaced, CallsSince, Ends;
    CallsAreFew(st.log, cfg.checkpointRequests);
    OneMore(st.log, e, cfg.checkpointRequests);
  }

  // ---- one target ------------------------------------------------------------------------------

  /** What the attempts of a target leave: one target ended at most, and the checkpoint that is due is
      made next. */
  ghost predicate Counted(cfg: Config, st: St, ended: nat, r: (St, Exit)) {
    && Counting(cfg, r.0, ended)
    && r.0.resolved <= st.resolved + (if r.1 == Resolved then 1 else 0)
    && (r.1 == OutOfAttempts ==> Paced(cfg, r.0, ended))
  }

  lemma {:induction false} AttemptsCount(cfg: Config, st: St, ended: nat, v: nat, attempt: nat, fetch: Oracle)
    requires v in st.mem && Paced(cfg, st, ended) && cfg.checkpointRequests > 0
    ensures Counted(cfg, st, ended, Attempts(cfg, st, v, attempt, fetch))
    decreases cfg.maxAttempts + 1 - attempt, 1
  {
    hide Spaced, CallsSince, Ends, Judge, Paced, Counting, Start, Check, Resolve, Halt;
    PacedCounts(cfg, st, ended);
    if attempt <= cfg.maxAttempts {
      StartCounts(cfg, st, ended, v, attempt);
      StartKnows(st, v, attempt);
      var s1 := Start(st, v, attempt);
      match fetch(st.asked)
      case Raised(kind, retryAfter) =>
        FailureCounts(cfg, s1, ended, v, attempt, kind, retryAfter, fetch);
      case Untrusted => HaltCounts(cfg, s1, ended, v, attempt, BadResponse, false);
      case Unusable => AnswerCounts(cfg, s1, ended, v, Exception(v, attempt, BadPubdate));
      case Usable => AnswerCounts(cfg, s1, ended, v, Candidate(v, attempt));
      case Interrupted => InterruptCounts(cfg, s1, ended);
    }
  }

  lemma {:induction false} StartKnows(st: St, v: nat, attempt: nat)
    requires v in st.mem
    ensures v in Start(st, v, attempt).mem
  {
  }

  lemma {:induction false} PacedCounts(cfg: Config, st: St, ended: nat)
    requires Paced(cfg, st, ended)
    ensures Counting(cfg, st, ended)
  {
  }

  lemma {:induction false} AnswerCounts(cfg: Config, st: St, ended: nat, v: nat, e: Event)
    requires v in st.mem && Counting(cfg, st, ended) && Terminal(e) && cfg.checkpointRequests > 0
    ensures var s := Check(cfg, Resolve(st, v, e), false); Counting(cfg, s, ended) && s.resolved == st.resolved + 1
  {
    ResolveCounts(cfg, st, ended, v, e);
    CheckPaces(cfg, Resolve(st, v, e), ended, false);
  }

  lemma {:induction false} InterruptCounts(cfg: Config, st: St, ended: nat)
    requires Counting(cfg, st, ended) && cfg.checkpointRequests > 0
    ensures var s := Check(cfg, st, true); Counting(cfg, s, ended) && s.resolved == st.resolved
  {
    CheckPaces(cfg, st, ended, true);
  }

  /** After a failure. */
  lemma {:induction false} FailureCounts(cfg: Config, s1: St, ended: nat, v: nat, attempt: nat, kind: Kind, retryAfter: Option<real>, fetch: Oracle)
    requires v in s1.mem && Counting(cfg, s1, ended) && cfg.checkpointRequests > 0 && attempt <= cfg.maxAttempts
    ensures var s2 := Fail(s1, v, attempt, kind);
      && v in s2.mem
      && match Judge(cfg, kind, retryAfter, s2.mem[v].rate, attempt)
         case StopRun(reason, wait) => Counted(cfg, s1, ended, Halt(cfg, s2, v, attempt, reason, wait))
         case GiveUp(why) => Counted(cfg, s1, ended, (Resolve(s2, v, Exception(v, attempt, why)), Resolved))
         case Again => v in Check(cfg, s2, false).mem && Counted(cfg, s1, ended, Attempts(cfg, Check(cfg, s2, false), v, attempt + 1, fetch))
    decreases cfg.maxAttempts + 1 - attempt, 0
  {
    hide Spaced, CallsSince, Ends, Judge, Attempts, Counting;
    var s2 := Fail(s1, v, attempt, kind);
    FailCounts(cfg, s1, ended, v, attempt, kind);
    match Judge(cfg, kind, retryAfter, s2.mem[v].rate, attempt)
    case StopRun(reason, wait) =>
      HaltCounts(cfg, s2, ended, v, attempt, reason, wait);
    case GiveUp(why) =>
      ResolveCounts(cfg, s2, ended, v, Exception(v, attempt, why));
    case Again =>
      CheckPaces(cfg, s2, ended, false);
      AttemptsCount(cfg, Check(cfg, s2, false), ended, v, attempt + 1, fetch);
  }

  lemma {:induction false} ConcludeCounts(cfg: Config, st: St, ended: nat, r: (St, Exit), v: nat)
    requires v in r.0.mem && Counted(cfg, st, ended, r) && cfg.checkpointRequests > 0
    ensures var c := Conclude(cfg, r.0, v, r.1);
      && Counting(cfg, c.0, ended) && c.0.resolved <= st.resolved + 1 && (c.1 == Resolved ==> Paced(cfg, c.0, ended))
  {
    hide Spaced, CallsSince, Ends, Counting;
    CheckPaces(cfg, r.0, ended, true);
    CheckPaces(cfg, r.0, ended, false);
    var e := Exception(v, r.0.mem[v].attempts, AttemptLimit);
    ResolveCounts(cfg, r.0, ended, v, e);
    CheckPaces(cfg, Resolve(r.0, v, e), ended, false);
  }

  lemma {:induction false} TargetCounts(cfg: Config, st: St, ended: nat, v: nat, fetch: Oracle)
    requires v in st.mem && Paced(cfg, st, ended) && cfg.checkpointRequests > 0
    ensures var t := Target(cfg, st, v, fetch);
      && Counting(cfg, t.0, ended) && t.0.resolved <= st.resolved + 1 && (t.1 == Resolved ==> Paced(cfg, t.0, ended))
  {
    hide Spaced, CallsSince, Ends, Counting, Attempts, Conclude, LastFailure, NeedsResume;
    CheckPaces(cfg, st, ended, true);
    if !HaltsAtOnce(cfg, st, v) {
      var r := Attempts(cfg, st, v, st.mem[v].attempts + 1, fetch);
      AttemptsKnow(cfg, st, v, st.mem[v].attempts + 1, fetch);
      AttemptsCount(cfg, st, ended, v, st.mem[v].attempts + 1, fetch);
      ConcludeCounts(cfg, st, ended, r, v);
      TargetTries(cfg, st, v, fetch, r, Conclude(cfg, r.0, v, r.1));
    }
  }

  // ---- the loop and the run --------------------------------------------------------------------

  /** The targets a run may end. */
  predicate Within(cfg: Config, resolved: int) {
    cfg.maxTargets.Some? ==> resolved <= (if cfg.maxTargets.value > 0 then cfg.maxTargets.value else 0)
  }

  lemma {:induction false} TargetsCount(cfg: Config, plan: seq<nat>, st: St, ended: nat, i: nat, fetch: Oracle)
    requires ValidPlan(plan) && Legal(plan, cfg.maxAttempts, st.log) && Agrees(plan, st) && i <= |plan|
    requires forall j :: 0 <= j < i ==> Ended(st.log, plan[j])
    requires Paced(cfg, st, ended) && cfg.checkpointRequests > 0 && Within(cfg, st.resolved)
    ensures var r := Targets(cfg, plan, st, i, fetch); Counting(cfg, r.0, ended) && Within(cfg, r.0.resolved)
    decreases |plan| - i
  {
    hide Target, Legal, Replay, Counting, Spaced, CallsSince, Ends;
    if i < |plan| {
      assert AgreesOn(st, plan[i]);
      if Done(st.mem[plan[i]]) {
        TargetsCount(cfg, plan, st, ended, i + 1, fetch);
      } else if !(cfg.maxTargets.Some? && st.resolved >= cfg.maxTargets.value) {
        AgreeingIsWorking(plan, cfg.maxAttempts, st, i);
        TargetCounts(cfg, st, ended, plan[i], fetch);
        TargetLegal(cfg, plan, st, i, fetch);
        var t := Target(cfg, st, plan[i], fetch);
        if t.1 != Halted {
          TargetsCount(cfg, plan, t.0, ended, i + 1, fetch);
        }
      }
    }
  }

  /** What the recovery appends sends nothing. */
  lemma {:induction false} RecoveryIsSpaced(base: seq<Event>, log: seq<Event>, limit: nat)
    requires OnlyRecoveries(base, log) && Spaced(base, limit)
    ensures Spaced(log, limit)
    decreases |log|
  {
    if |log| > |base| {
      var init := log[..|log| - 1];
      assert log == init + [log[|log| - 1]];
      RecoveryIsSpaced(base, init, limit);
      CallsAreFew(init, limit);
      OneMore(init, log[|log| - 1], limit);
    } else {
      assert log == base;
    }
  }

  lemma {:induction false} RecoveredIsSpaced(plan: seq<nat>, log: seq<Event>, limit: nat)
    requires Spaced(log, limit)
    ensures Spaced(Recover(plan, Load(plan, log), 0).log, limit)
  {
    hide Recover, Spaced;
    RecoverAppends(plan, Load(plan, log), 0, log);
    RecoveryIsSpaced(log, Recover(plan, Load(plan, log), 0).log, limit);
  }

  /** One run: the spacing is kept, and no more targets are ended than the options allow, apart from
      the requests in flight that the recovery ends. */
  lemma {:induction false} RunCounts(cfg: Config, plan: seq<nat>, log: seq<Event>, fetch: Oracle)
    requires ValidPlan(plan) && Legal(plan, cfg.maxAttempts, log) && Spaced(log, cfg.checkpointRequests)
    requires cfg.maxAttempts > 0 && cfg.checkpointRequests > 0
    ensures var full, settled := RunLog(cfg, plan, log, fetch), Recover(plan, Load(plan, log), 0).log;
      Spaced(full, cfg.checkpointRequests) && Within(cfg, Ends(full) - Ends(settled))
  {
    hide Targets, Legal, Replay, Recover, Load, ActiveStop, CallsSince, Refused, Spaced, Ends, Agrees;
    var st := RecoveredLegal(plan, cfg.maxAttempts, log);
    RecoveredIsSpaced(plan, log, cfg.checkpointRequests);
    if !Refused(cfg, ActiveStop(st.log, |st.log|)) {
      LoopCounts(cfg, plan, st, fetch);
    }
  }

  lemma {:induction false} LoopCounts(cfg: Config, plan: seq<nat>, st: St, fetch: Oracle)
    requires ValidPlan(plan) && Legal(plan, cfg.maxAttempts, st.log) && Agrees(plan, st) && st.resolved == 0
    requires Spaced(st.log, cfg.checkpointRequests) && cfg.checkpointRequests > 0
    ensures var calls := CallsSince(st.log);
      var ready := Check(cfg, st.(calls := calls), calls > 0 || (st.log != [] && !cfg.hasManifest));
      && Knows(plan, ready)
      && var r := Targets(cfg, plan, ready, 0, fetch);
      var end := if r.1 == Finished then Check(cfg, r.0, true).log else r.0.log;
      Spaced(end, cfg.checkpointRequests) && Within(cfg, Ends(end) - Ends(st.log))
  {
    hide Targets, Legal, Replay, CallsSince, Spaced, Ends, Counting, Paced, Check, AgreesOn;
    var ready := ReadyLegal(cfg, plan, st);
    EntryCounts(cfg, st, CallsSince(st.log) > 0 || (st.log != [] && !cfg.hasManifest));
    TargetsCount(cfg, plan, ready, Ends(st.log), 0, fetch);
    EndCounts(cfg, Targets(cfg, plan, ready, 0, fetch), Ends(st.log));
  }

  lemma {:induction false} EntryCounts(cfg: Config, st: St, force: bool)
    requires Spaced(st.log, cfg.checkpointRequests) && cfg.checkpointRequests > 0 && st.resolved == 0
    ensures var ready := Check(cfg, st.(calls := CallsSince(st.log)), force); Paced(cfg, ready, Ends(st.log)) && ready.resolved == 0
  {
    hide Spaced, CallsSince, Ends;
    CheckPaces(cfg, st.(calls := CallsSince(st.log)), Ends(st.log), force);
  }

  lemma {:induction false} EndCounts(cfg: Config, r: (St, Exit), ended: nat)
    requires Counting(cfg, r.0, ended) && Within(cfg, r.0.resolved) && cfg.checkpointRequests > 0
    ensures var end := if r.1 == Finished then Check(cfg, r.0, true).log else r.0.log;
      Spaced(end, cfg.checkpointRequests) && Within(cfg, Ends(end) - ended)
  {
    hide Spaced, CallsSince, Ends;
    CheckPaces(cfg, r.0, ended, true);
  }

  // ---- over runs -------------------------------------------------------------------------------

  ghost predicate SamePace(runs: seq<RunInput>, limit: nat) {
    forall i :: 0 <= i < |runs| ==> runs[i].cfg.checkpointRequests == limit
  }

  lemma {:induction false} CutIsSpaced(plan: seq<nat>, log: seq<Event>, run: RunInput)
    requires ValidPlan(plan) && Legal(plan, run.cfg.maxAttempts, log) && Spaced(log, run.cfg.checkpointRequests)
    ensures Spaced(CutRun(plan, log, run), run.cfg.checkpointRequests)
  {
    hide RunLog, Legal, CallsSince;
    var full := RunLog(run.cfg, plan, log, run.fetch);
    if run.cfg.maxAttempts > 0 && run.cfg.checkpointRequests > 0 {
      RunCounts(run.cfg, plan, log, run.fetch);
    } else {
      RefusedAtOnce(run.cfg, plan, log, run.fetch);
    }
    if run.cut < |full| {
      forall n | 0 <= n <= run.cut ensures CallsSince(full[..run.cut][..n]) <= run.cfg.checkpointRequests {
        assert full[..run.cut][..n] == full[..n];
      }
    }
  }

  lemma {:induction false} RefusedAtOnce(cfg: Config, plan: seq<nat>, log: seq<Event>, fetch: Oracle)
    requires cfg.maxAttempts == 0 || cfg.checkpointRequests == 0
    ensures RunLog(cfg, plan, log, fetch) == log
  {
  }

  lemma {:induction false} RunsAreSpaced(plan: seq<nat>, max: nat, limit: nat, log: seq<Event>, runs: seq<RunInput>)
    requires ValidPlan(plan) && SameLimit(runs, max) && SamePace(runs, limit) && Legal(plan, max, log) && Spaced(log, limit)
    ensures Spaced(Runs(plan, log, runs), limit)
    decreases |runs|
  {
    hide CutRun, Legal, Spaced;
    if runs != [] {
      CutLegal(plan, log, runs[0]);
      CutIsSpaced(plan, log, runs[0]);
      RunsAreSpaced(plan, max, limit, CutRun(plan, log, runs[0]), runs[1..]);
    }
  }

  /** The places of the requests among the events from `i` up to `j`. */
  function StartsIn(log: seq<Event>, i: nat, j: nat): set<nat>
    requires i <= j <= |log|
  {
    set k: nat | i <= k < j && log[k].Started?
  }

  lemma {:induction false} CallsCover(log: seq<Event>, i: nat, j: nat)
    requires i <= j <= |log| && forall k :: i <= k < j ==> !log[k].Checkpoint?
    ensures |StartsIn(log, i, j)| <= CallsSince(log[..j])
    decreases j
  {
    if i == j {
      assert StartsIn(log, i, j) == {};
    } else {
      var n := j - 1;
      CallsCover(log, i, n);
      assert log[..j][..n] == log[..n];
      assert StartsIn(log, i, j) == StartsIn(log, i, n) + (if log[n].Started? then {n} else {});
    }
  }

  /** Across any runs with the same limit, each cut anywhere: a stretch of the log without a checkpoint
      holds no more requests than the limit, so that much work at most is done without a manifest. */
  lemma {:induction false} CheckpointsAreTimely(plan: seq<nat>, max: nat, limit: nat, runs: seq<RunInput>, i: nat, j: nat)
    requires ValidPlan(plan) && SameLimit(runs, max) && SamePace(runs, limit)
    requires var log := Runs(plan, [], runs); i <= j <= |log| && forall k :: i <= k < j ==> !log[k].Checkpoint?
    ensures |StartsIn(Runs(plan, [], runs), i, j)| <= limit
  {
    hide Runs;
    RunsAreSpaced(plan, max, limit, [], runs);
    CallsCover(Runs(plan, [], runs), i, j);
  }
}
