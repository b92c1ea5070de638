/** Two laws of the harvest that hold only under a condition on the log: the rate-limit streak
    that stops everything, and the request that a crash leaves in flight. */
module HarvestStreak {
  import opened Wrappers
  import opened Harvest
  import opened HarvestSafety

  ghost predicate StartsSomething(log: seq<Event>, n: nat) {
    exists i :: n <= i < |log| && log[i].Started?
  }

  /** A target whose streak is two, with every one of its requests answered. */
  ghost predicate Blocked(plan: seq<nat>, max: nat, log: seq<Event>, v: nat) {
    Legal(plan, max, log) && Replay(log, v).rate == 2 && Replay(log, v).open == 0
  }

  /** `log` continues `base` by checkpoints only. */
  ghost predicate OnlyCheckpoints(base: seq<Event>, log: seq<Event>) {
    base <= log && forall i :: |base| <= i < |log| ==> log[i] == Checkpoint
  }

  lemma {:induction false} CheckpointsKeepReplay(base: seq<Event>, log: seq<Event>, v: nat)
    requires OnlyCheckpoints(base, log)
    ensures Replay(log, v) == Replay(base, v)
    decreases |log|
  {
    if log != base {
      var init := log[..|log| - 1];
      assert log == init + [Checkpoint];
      CheckpointsKeepReplay(base, init, v);
      ReplaySnoc(init, Checkpoint, v);
    }
  }

  /** The newest event about a target with a streak is a failure or a stop. */
  lemma {:induction false} StreakIsOpen(plan: seq<nat>, max: nat, log: seq<Event>, v: nat)
    requires ValidPlan(plan) && Legal(plan, max, log) && Replay(log, v).rate > 0
    ensures !Ended(log, v) && v in plan
    ensures LastFailure(log, v) == Some(RateLimit)
    decreases |log|
  {
    if log != [] {
      var init, e := log[..|log| - 1], log[|log| - 1];
      assert log == init + [e];
      ReplaySnoc(init, e, v);
      if About(e, v) {
        var k: nat :| OpenAt(plan, init, k) && plan[k] == e.video && Timely(max, init, e);
        if !e.Failed? { StreakIsOpen(plan, max, init, v); }
      } else {
        StreakIsOpen(plan, max, init, v);
      }
    }
  }

  lemma {:induction false} StreakIsFirst(plan: seq<nat>, max: nat, log: seq<Event>, v: nat) returns (k: nat)
    requires ValidPlan(plan) && Legal(plan, max, log) && Replay(log, v).rate > 0
    ensures OpenAt(plan, log, k) && plan[k] == v
  {
    StreakIsOpen(plan, max, log, v);
    k :| 0 <= k < |plan| && plan[k] == v;
    BusyIsFirst(plan, max, log, k);
  }

  /** With no request in flight there is nothing to recover. */
  lemma {:induction false} NothingToRecover(plan: seq<nat>, st: St, i: nat)
    requires Knows(plan, st) && i <= |plan|
    requires forall j :: 0 <= j < |plan| ==> st.mem[plan[j]].latest != InFlight
    ensures Recover(plan, st, i) == st
    decreases |plan| - i
  {
    if i < |plan| {
      NothingToRecover(plan, st, i + 1);
    }
  }

  /** The loop walks over the ended targets and refuses the blocked one. */
  lemma {:induction false} BlockedTargets(cfg: Config, plan: seq<nat>, st: St, i: nat, k: nat, fetch: Oracle)
    requires Knows(plan, st) && i <= k < |plan|
    requires forall j :: 0 <= j < k ==> Done(st.mem[plan[j]])
    requires !Done(st.mem[plan[k]]) && st.mem[plan[k]].rate >= 2
    ensures OnlyCheckpoints(st.log, Targets(cfg, plan, st, i, fetch).0.log)
    decreases k - i
  {
    if i < k {
      BlockedTargets(cfg, plan, st, i + 1, k, fetch);
    }
  }

  /** A run on a blocked log appends checkpoints and nothing else, whatever its options. */
  lemma {:induction false} BlockedRun(cfg: Config, plan: seq<nat>, log: seq<Event>, fetch: Oracle, v: nat)
    requires ValidPlan(plan) && Blocked(plan, cfg.maxAttempts, log, v)
    ensures OnlyCheckpoints(log, RunLog(cfg, plan, log, fetch))
  {
    hide Targets, Recover, Legal, Replay, ActiveStop, CallsSince;
    if cfg.maxAttempts != 0 && cfg.checkpointRequests != 0 {
      var max := cfg.maxAttempts;
      var k := StreakIsFirst(plan, max, log, v);
      var st := Load(plan, log);
      LoadIsLoaded(plan, log);
      forall j | 0 <= j < |plan| ensures st.mem[plan[j]].latest != InFlight && (j < k ==> Done(st.mem[plan[j]])) {
        if j > k { LaterTargetsAreFresh(plan, max, log, k, j); }
      }
      NothingToRecover(plan, st, 0);
      if !Refused(cfg, ActiveStop(st.log, |st.log|)) {
        var calls := CallsSince(st.log);
        var ready := Check(cfg, st.(calls := calls), calls > 0 || (st.log != [] && !cfg.hasManifest));
        BlockedTargets(cfg, plan, ready, 0, k, fetch);
      }
    }
  }

  lemma {:induction false} BlockedForever(plan: seq<nat>, max: nat, log: seq<Event>, v: nat, runs: seq<RunInput>)
    requires ValidPlan(plan) && Blocked(plan, max, log, v) && SameLimit(runs, max)
    ensures OnlyCheckpoints(log, Runs(plan, log, runs))
    decreases |runs|
  {
    if runs != [] {
      var next := CutRun(plan, log, runs[0]);
      BlockedRun(runs[0].cfg, plan, log, runs[0].fetch, v);
      CutLegal(plan, log, runs[0]);
      assert OnlyCheckpoints(log, next);
      CheckpointsKeepReplay(log, next, v);
      BlockedForever(plan, max, next, v, runs[1..]);
    }
  }

  // ---- the way out: a request that a stop hid ------------------------------------------------

  /** What `Recover` does when the first open target is in flight: exactly one exception. */
  lemma {:induction false} RecoverOne(plan: seq<nat>, st: St, i: nat, k: nat)
    requires Knows(plan, st) && i <= k < |plan| && ValidPlan(plan)
    requires forall j :: 0 <= j < |plan| && j != k ==> st.mem[plan[j]].latest != InFlight
    requires st.mem[plan[k]].latest == InFlight
    ensures var e := Exception(plan[k], st.mem[plan[k]].attempts, InFlightUnknown);
      Recover(plan, st, i) == st.(log := st.log + [e], mem := st.mem[plan[k] := st.mem[plan[k]].(latest := Seen(e))])
    decreases k - i
  {
    if i < k {
      RecoverOne(plan, st, i + 1, k);
    } else {
      var e := Exception(plan[k], st.mem[plan[k]].attempts, InFlightUnknown);
      var s := st.(log := st.log + [e], mem := st.mem[plan[k] := st.mem[plan[k]].(latest := Seen(e))]);
      NothingToRecover(plan, s, k + 1);
    }
  }

  /** The first open target of a legal log has a request in flight. */
  lemma {:induction false} InFlightRecovery(plan: seq<nat>, max: nat, log: seq<Event>, k: nat)
    requires ValidPlan(plan) && Legal(plan, max, log) && OpenAt(plan, log, k)
    requires LatestOf(Replay(log, plan[k])) == InFlight
    ensures var st := Load(plan, log);
      var e := Exception(plan[k], Replay(log, plan[k]).attempts, InFlightUnknown);
      Recover(plan, st, 0) == st.(log := log + [e], mem := st.mem[plan[k] := st.mem[plan[k]].(latest := Seen(e))])
  {
    var st := Load(plan, log);
    LoadIsLoaded(plan, log);
    forall j | 0 <= j < |plan| && j != k ensures st.mem[plan[j]].latest != InFlight {
      if j > k { LaterTargetsAreFresh(plan, max, log, k, j); }
    }
    RecoverOne(plan, st, 0, k);
  }

  /** A stop about an ended target is never active again. */
  lemma {:induction false} StopsOfTheEndedAreOver(plan: seq<nat>, max: nat, log: seq<Event>, n: nat)
    requires ValidPlan(plan) && Legal(plan, max, log) && n <= |log|
    requires forall i :: 0 <= i < |log| && log[i].Stopped? ==> Ended(log, log[i].video)
    ensures ActiveStop(log, n).None?
    decreases n
  {
    if n > 0 {
      StopsOfTheEndedAreOver(plan, max, log, n - 1);
      if log[n - 1].Stopped? {
        var v := log[n - 1].video;
        var j := EndIsLogged(log, v);
        if j < n - 1 {
          EndsAtTerminal(log, j);
          EndedStays(plan, max, log, j + 1, v);
        }
        assert Answers(log[j], v);
      }
    }
  }

  lemma {:induction false} EndIsLogged(log: seq<Event>, v: nat) returns (j: nat)
    requires Ended(log, v)
    ensures j < |log| && Terminal(log[j]) && log[j].video == v
    decreases |log|
  {
    var init, e := log[..|log| - 1], log[|log| - 1];
    assert log == init + [e];
    ReplaySnoc(init, e, v);
    if About(e, v) && !e.Started? {
      j := |log| - 1;
    } else {
      j := EndIsLogged(init, v);
    }
  }

  /** Events are only ever about targets up to the first open one. */
  lemma {:induction false} EventsAreEarly(plan: seq<nat>, max: nat, log: seq<Event>, k: nat, i: nat)
    requires ValidPlan(plan) && Legal(plan, max, log) && OpenAt(plan, log, k)
    requires i < |log| && !log[i].Checkpoint?
    ensures log[i].video == plan[k] || Ended(log, log[i].video)
  {
    AllowedAt(plan, max, log, i);
    var j: nat :| OpenAt(plan, log[..i], j) && plan[j] == log[i].video && Timely(max, log[..i], log[i]);
    if k < j {
      EndedStays(plan, max, log, i, plan[k]);
      assert false;
    }
  }

  lemma {:induction false} TargetStarts(cfg: Config, st: St, v: nat, fetch: Oracle)
    requires v in st.mem && !HaltsAtOnce(cfg, st, v) && st.mem[v].attempts < cfg.maxAttempts
    ensures st.log + [Started(v, st.mem[v].attempts + 1)] <= Target(cfg, st, v, fetch).0.log
  {
    hide Attempts, Conclude, LastFailure, NeedsResume;
    var attempt := st.mem[v].attempts + 1;
    var r := Attempts(cfg, st, v, attempt, fetch);
    assert st.log + [Started(v, attempt)] <= r.0.log && v in r.0.mem by {
      FirstAppendIsStart(cfg, st, v, attempt, fetch);
      AttemptsKnow(cfg, st, v, attempt, fetch);
    }
    ConcludeGrows(cfg, r.0, v, r.1);
    TargetTries(cfg, st, v, fetch, r, Conclude(cfg, r.0, v, r.1));
  }

  /** The run may still resolve a target. */
  predicate WantsMore(cfg: Config, st: St) {
    cfg.maxTargets.None? || st.resolved < cfg.maxTargets.value
  }

  /** The rest of the loop only adds to the log. */
  lemma {:induction false} RestKeeps(cfg: Config, plan: seq<nat>, t: St, k: nat, fetch: Oracle) returns (rest: (St, Exit))
    requires ValidPlan(plan) && Legal(plan, cfg.maxAttempts, t.log) && Agrees(plan, t) && k < |plan|
    requires forall j :: 0 <= j < k + 1 ==> Ended(t.log, plan[j])
    ensures rest == Targets(cfg, plan, t, k + 1, fetch) && t.log <= rest.0.log
  {
    TargetsLegal(cfg, plan, t, k + 1, fetch);
    rest := Targets(cfg, plan, t, k + 1, fetch);
  }

  /** One turn of the loop at a target that is not done. */
  lemma {:induction false} TargetsUnfold(cfg: Config, plan: seq<nat>, st: St, k: nat, fetch: Oracle, t: (St, Exit), rest: (St, Exit))
    requires WantsMore(cfg, st) && k < |plan| && Knows(plan, st) && !Done(st.mem[plan[k]]) && t == Target(cfg, st, plan[k], fetch)
    requires t.1 != Halted ==> Knows(plan, t.0) && rest == Targets(cfg, plan, t.0, k + 1, fetch)
    ensures Targets(cfg, plan, st, k, fetch).0.log == if t.1 == Halted then t.0.log else rest.0.log
  {
  }

  /** Whatever the target's own step appends is in the log when the loop ends. */
  lemma {:induction false} TargetIsKept(cfg: Config, plan: seq<nat>, st: St, k: nat, fetch: Oracle)
    requires ValidPlan(plan) && WantsMore(cfg, st) && Working(plan, cfg.maxAttempts, st, k) && Agrees(plan, st)
    ensures Target(cfg, st, plan[k], fetch).0.log <= Targets(cfg, plan, st, k, fetch).0.log
  {
    assert AgreesOn(st, plan[k]);
    var t := TargetEnds(cfg, plan, st, k, fetch);
    var rest := t;
    if t.1 != Halted {
      rest := RestKeeps(cfg, plan, t.0, k, fetch);
    }
    TargetsUnfold(cfg, plan, st, k, fetch, t, rest);
  }

  lemma {:induction false} TargetEnds(cfg: Config, plan: seq<nat>, st: St, k: nat, fetch: Oracle) returns (t: (St, Exit))
    requires ValidPlan(plan) && Working(plan, cfg.maxAttempts, st, k) && Agrees(plan, st)
    ensures t == Target(cfg, st, plan[k], fetch) && Legal(plan, cfg.maxAttempts, t.0.log) && Knows(plan, t.0)
    ensures t.1 != Halted ==> Agrees(plan, t.0) && forall j :: 0 <= j < k + 1 ==> Ended(t.0.log, plan[j])
  {
    t := Target(cfg, st, plan[k], fetch);
    TargetLegal(cfg, plan, st, k, fetch);
  }

  lemma {:induction false} ReachedHere(cfg: Config, plan: seq<nat>, st: St, k: nat, fetch: Oracle)
    requires WantsMore(cfg, st) && Working(plan, cfg.maxAttempts, st, k) && Agrees(plan, st)
    requires Replay(st.log, plan[k]).attempts < cfg.maxAttempts && !HaltsAtOnce(cfg, st, plan[k])
    ensures st.log + [Started(plan[k], Replay(st.log, plan[k]).attempts + 1)] <= Targets(cfg, plan, st, k, fetch).0.log
  {
    TargetStarts(cfg, st, plan[k], fetch);
    TargetIsKept(cfg, plan, st, k, fetch);
  }

  /** The loop goes past `k` ended targets and sends a request for the next one. */
  lemma {:induction false} ReachesNext(cfg: Config, plan: seq<nat>, st: St, i: nat, k: nat, fetch: Oracle)
    requires ValidPlan(plan) && WantsMore(cfg, st)
    requires Legal(plan, cfg.maxAttempts, st.log) && Agrees(plan, st) && i <= k && OpenAt(plan, st.log, k)
    requires Replay(st.log, plan[k]).attempts < cfg.maxAttempts && !HaltsAtOnce(cfg, st, plan[k])
    ensures st.log + [Started(plan[k], Replay(st.log, plan[k]).attempts + 1)] <= Targets(cfg, plan, st, i, fetch).0.log
    decreases k - i
  {
    hide Target, Legal, Replay;
    if i < k {
      assert AgreesOn(st, plan[i]);
      ReachesNext(cfg, plan, st, i + 1, k, fetch);
    } else {
      assert AgreesOn(st, plan[k]);
      AgreeingIsWorking(plan, cfg.maxAttempts, st, k);
      ReachedHere(cfg, plan, st, k, fetch);
    }
  }

  lemma {:induction false} ConcludeGrows(cfg: Config, s: St, v: nat, x: Exit)
    requires v in s.mem
    ensures s.log <= Conclude(cfg, s, v, x).0.log
  {
  }

  lemma {:induction false} AttemptsGrow(cfg: Config, st: St, v: nat, attempt: nat, fetch: Oracle)
    requires v in st.mem
    ensures st.log <= Attempts(cfg, st, v, attempt, fetch).0.log
    decreases cfg.maxAttempts + 1 - attempt
  {
    if attempt <= cfg.maxAttempts {
      var a := fetch(st.asked);
      if a.Raised? {
        var s2 := Fail(Start(st, v, attempt), v, attempt, a.kind);
        assert st.log <= s2.log;
        if Judge(cfg, a.kind, a.retryAfter, s2.mem[v].rate, attempt).Again? {
          AttemptsGrow(cfg, Check(cfg, s2, false), v, attempt + 1, fetch);
        }
      }
    }
  }

  lemma {:induction false} FirstAppendIsStart(cfg: Config, st: St, v: nat, attempt: nat, fetch: Oracle)
    requires v in st.mem && attempt <= cfg.maxAttempts
    ensures st.log + [Started(v, attempt)] <= Attempts(cfg, st, v, attempt, fetch).0.log
  {
    hide Judge;
    var s1 := Start(st, v, attempt);
    var a := fetch(st.asked);
    if a.Raised? {
      var s2 := Fail(s1, v, attempt, a.kind);
      assert s1.log <= s2.log;
      if Judge(cfg, a.kind, a.retryAfter, s2.mem[v].rate, attempt).Again? {
        AttemptsGrow(cfg, Check(cfg, s2, false), v, attempt + 1, fetch);
        assert s2.log <= Check(cfg, s2, false).log;
      }
    }
  }

  /** Options under which a run goes as far as it can. */
  function Eager(max: nat): Config {
    Config(max, 0.0, None, true, true, true, 1)
  }

  lemma {:induction false} OpenStreakIsInFlight(plan: seq<nat>, max: nat, log: seq<Event>, v: nat)
    requires ValidPlan(plan) && Legal(plan, max, log) && Replay(log, v).rate == 2 && Replay(log, v).open > 0
    ensures LatestOf(Replay(log, v)) == InFlight
    decreases |log|
  {
    var init, e := log[..|log| - 1], log[|log| - 1];
    assert log == init + [e];
    ReplaySnoc(init, e, v);
    if About(e, v) {
      var k: nat :| OpenAt(plan, init, k) && plan[k] == e.video && Timely(max, init, e);
    } else {
      OpenStreakIsInFlight(plan, max, init, v);
    }
  }

  /** The state of the next run once the unanswered start has become an exception. */
  lemma {:induction false} AfterRecovery(plan: seq<nat>, max: nat, log: seq<Event>, k: nat) returns (st: St)
    requires ValidPlan(plan) && Legal(plan, max, log) && OpenAt(plan, log, k) && k + 1 < |plan|
    requires LatestOf(Replay(log, plan[k])) == InFlight
    ensures st == Recover(plan, Load(plan, log), 0)
    ensures st.log == log + [Exception(plan[k], Replay(log, plan[k]).attempts, InFlightUnknown)]
    ensures Legal(plan, max, st.log) && Agrees(plan, st) && OpenAt(plan, st.log, k + 1)
    ensures Replay(st.log, plan[k + 1]) == Replayed(0, None, 0, 0)
    ensures ActiveStop(st.log, |st.log|).None?
  {
    hide Recover, Legal, Replay, ActiveStop;
    InFlightRecovery(plan, max, log, k);
    LoadIsLoaded(plan, log);
    var _ := RecoverLegal(plan, max, Load(plan, log), 0);
    st := Recover(plan, Load(plan, log), 0);
    Extend(plan, max, log, k, Exception(plan[k], Replay(log, plan[k]).attempts, InFlightUnknown));
    LaterTargetsAreFresh(plan, max, log, k, k + 1);
    assert OpenAt(plan, st.log, k + 1);
    forall i | 0 <= i < |st.log| && st.log[i].Stopped? ensures Ended(st.log, st.log[i].video) {
      EventsAreEarly(plan, max, st.log, k + 1, i);
      FreshHasNoEvents(plan, st.log, k + 1, i);
    }
    StopsOfTheEndedAreOver(plan, max, st.log, |st.log|);
  }

  /** An eager run goes through its loop from the recovered state. */
  lemma {:induction false} EagerRunIsItsLoop(plan: seq<nat>, max: nat, log: seq<Event>, fetch: Oracle)
    requires max > 0
    requires var st := Recover(plan, Load(plan, log), 0); !Refused(Eager(max), ActiveStop(st.log, |st.log|))
    ensures var st := Recover(plan, Load(plan, log), 0);
      var ready := Check(Eager(max), st.(calls := CallsSince(st.log)), CallsSince(st.log) > 0);
      Targets(Eager(max), plan, ready, 0, fetch).0.log <= RunLog(Eager(max), plan, log, fetch)
  {
  }

  /** A streak of two with an unanswered start, and a target left: the next eager run turns the
      unanswered start into an exception and sends a request for the next target. */
  lemma {:induction false} OpenStreakEscapes(plan: seq<nat>, max: nat, log: seq<Event>, v: nat, k: nat, fetch: Oracle)
    requires ValidPlan(plan) && Legal(plan, max, log) && Replay(log, v).rate == 2 && Replay(log, v).open > 0
    requires OpenAt(plan, log, k) && plan[k] == v && k + 1 < |plan| && max > 0
    ensures StartsSomething(RunLog(Eager(max), plan, log, fetch), |log|)
  {
    hide Targets, Recover, Legal, Replay, ActiveStop, CallsSince;
    OpenStreakIsInFlight(plan, max, log, v);
    var st := AfterRecovery(plan, max, log, k);
    EagerRunIsItsLoop(plan, max, log, fetch);
    EagerLoopStarts(plan, max, st, k + 1, fetch);
    var ready := Check(Eager(max), st.(calls := CallsSince(st.log)), CallsSince(st.log) > 0);
    var full := RunLog(Eager(max), plan, log, fetch);
    assert ready.log + [Started(plan[k + 1], 1)] <= full;
    assert full[|ready.log|] == Started(plan[k + 1], 1);
  }

  lemma {:induction false} EagerLoopStarts(plan: seq<nat>, max: nat, st: St, k: nat, fetch: Oracle)
    requires ValidPlan(plan) && Legal(plan, max, st.log) && Agrees(plan, st) && OpenAt(plan, st.log, k) && max > 0
    requires Replay(st.log, plan[k]) == Replayed(0, None, 0, 0)
    ensures var ready := Check(Eager(max), st.(calls := CallsSince(st.log)), CallsSince(st.log) > 0);
      && |st.log| <= |ready.log| && Knows(plan, ready)
      && ready.log + [Started(plan[k], 1)] <= Targets(Eager(max), plan, ready, 0, fetch).0.log
  {
    hide Targets, Legal, Replay;
    var calls := CallsSince(st.log);
    CheckWorks(Eager(max), plan, max, st.(calls := calls), calls > 0);
    var ready := Check(Eager(max), st.(calls := calls), calls > 0);
    ReadyAgrees(plan, st, ready);
    assert OpenAt(plan, ready.log, k);
    ReachesNext(Eager(max), plan, ready, 0, k, fetch);
  }

  lemma {:induction false} ReadyAgrees(plan: seq<nat>, st: St, ready: St)
    requires Agrees(plan, st) && ready.mem == st.mem && forall v :: Replay(ready.log, v) == Replay(st.log, v)
    ensures Agrees(plan, ready)
  {
    forall i | 0 <= i < |plan| ensures AgreesOn(ready, plan[i]) { assert AgreesOn(st, plan[i]); }
  }

  /** A target whose fold is empty has no decisive event in the log. */
  lemma {:induction false} FreshHasNoEvents(plan: seq<nat>, log: seq<Event>, k: nat, i: nat)
    requires k < |plan| && Replay(log, plan[k]) == Replayed(0, None, 0, 0)
    requires i < |log| && log[i].Stopped?
    ensures log[i].video != plan[k]
    decreases |log|
  {
    var init, e := log[..|log| - 1], log[|log| - 1];
    assert log == init + [e];
    ReplaySnoc(init, e, plan[k]);
    if i < |init| {
      assert log[i] == init[i];
      FreshHasNoEvents(plan, init, k, i);
    }
  }

  /** While a target with a streak of two is open, nothing is started, in any legal continuation. */
  lemma {:induction false} NoStartWhileOpen(plan: seq<nat>, max: nat, log: seq<Event>, full: seq<Event>, k: nat)
    requires ValidPlan(plan) && Legal(plan, max, full) && log <= full && k + 1 == |plan|
    requires forall j :: 0 <= j < k ==> Ended(log, plan[j])
    requires Replay(log, plan[k]).rate == 2
    ensures !StartsSomething(full, |log|) && (Ended(full, plan[k]) || Replay(full, plan[k]).rate == 2)
    decreases |full|
  {
    if full != log {
      var init, e := full[..|full| - 1], full[|full| - 1];
      assert full == init + [e];
      NoStartWhileOpen(plan, max, log, init, k);
      ReplaySnoc(init, e, plan[k]);
      LegalBounds(plan, max, init, plan[k]);
      if !e.Checkpoint? {
        var j: nat :| OpenAt(plan, init, j) && plan[j] == e.video && Timely(max, init, e);
        if j < k {
          assert init[..|log|] == log;
          EndedStays(plan, max, init, |log|, plan[j]);
        }
      }
      assert !e.Started?;
      assert forall i :: |log| <= i < |init| ==> !init[i].Started?;
    }
  }

  lemma {:induction false} LastTargetRuns(plan: seq<nat>, max: nat, log: seq<Event>, k: nat, runs: seq<RunInput>)
    requires ValidPlan(plan) && Legal(plan, max, log) && OpenAt(plan, log, k) && k + 1 == |plan|
    requires Replay(log, plan[k]).rate == 2 && SameLimit(runs, max)
    ensures !StartsSomething(Runs(plan, log, runs), |log|)
  {
    RunsLegal(plan, max, log, runs);
    NoStartWhileOpen(plan, max, log, Runs(plan, log, runs), k);
  }

  /** No continuation by any runs and cuts starts a request for any target. */
  ghost predicate Silent(plan: seq<nat>, max: nat, log: seq<Event>) {
    forall runs :: SameLimit(runs, max) ==> !StartsSomething(Runs(plan, log, runs), |log|)
  }

  lemma {:induction false} BlockedIsSilent(plan: seq<nat>, max: nat, log: seq<Event>, v: nat)
    requires ValidPlan(plan) && Blocked(plan, max, log, v)
    ensures Silent(plan, max, log)
  {
    forall runs | SameLimit(runs, max) ensures !StartsSomething(Runs(plan, log, runs), |log|) {
      BlockedForever(plan, max, log, v, runs);
    }
  }

  lemma {:induction false} LastTargetIsSilent(plan: seq<nat>, max: nat, log: seq<Event>, k: nat)
    requires ValidPlan(plan) && Legal(plan, max, log) && OpenAt(plan, log, k) && k + 1 == |plan|
    requires Replay(log, plan[k]).rate == 2
    ensures Silent(plan, max, log)
  {
    forall runs | SameLimit(runs, max) ensures !StartsSomething(Runs(plan, log, runs), |log|) {
      LastTargetRuns(plan, max, log, k, runs);
    }
  }

  lemma {:induction false} StreakEscapesInOneRun(plan: seq<nat>, max: nat, log: seq<Event>, k: nat)
    requires ValidPlan(plan) && Legal(plan, max, log) && OpenAt(plan, log, k) && k + 1 < |plan| && max > 0
    requires Replay(log, plan[k]).rate == 2 && Replay(log, plan[k]).open > 0
    ensures !Silent(plan, max, log)
  {
    var fetch: Oracle := (n: nat) => Usable;
    OpenStreakEscapes(plan, max, log, plan[k], k, fetch);
    var full := RunLog(Eager(max), plan, log, fetch);
    var run := RunInput(Eager(max), fetch, |full|);
    assert CutRun(plan, log, run) == full;
    assert Runs(plan, full, [run][1..]) == full;
    assert Runs(plan, log, [run]) == full;
    assert SameLimit([run], max) && StartsSomething(Runs(plan, log, [run]), |log|);
  }

  /** When the streak stops everything: once the streak of some target is two, no continuation
      ever starts a request for any target again, if and only if every request of that target
      has been answered, or it is the last target of the plan. */
  lemma {:induction false} StreakStopsEverythingIff(plan: seq<nat>, max: nat, log: seq<Event>, v: nat)
    requires ValidPlan(plan) && Legal(plan, max, log) && Replay(log, v).rate == 2
    ensures Silent(plan, max, log) <==> Replay(log, v).open == 0 || (|plan| > 0 && v == plan[|plan| - 1])
  {
    var k := StreakIsFirst(plan, max, log, v);
    if Replay(log, v).open == 0 {
      BlockedIsSilent(plan, max, log, v);
    } else if k + 1 == |plan| {
      LastTargetIsSilent(plan, max, log, k);
    } else {
      LegalBounds(plan, max, log, v);
      StreakEscapesInOneRun(plan, max, log, k);
      assert plan[k] != plan[|plan| - 1];
    }
  }
}
