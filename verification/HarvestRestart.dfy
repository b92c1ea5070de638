/** Crashes between two targets, at any turn of any run, and what becomes of a request that was in
    flight, over all later runs and cuts. */
module HarvestRestart {
  import opened Wrappers
  import opened Harvest
  import opened HarvestSafety
  import opened HarvestStreak
  import opened HarvestResume

  // ---- the turns of a run ----------------------------------------------------------------------

  /** The state in which the loop over the plan, at target `i` in `st`, comes to target `j`; None
      when the loop ends before. */
  function HeadFrom(cfg: Config, plan: seq<nat>, st: St, i: nat, j: nat, fetch: Oracle): Option<St>
    requires i <= j <= |plan| && Knows(plan, st)
    decreases j - i
  {
    if i == j then Some(st)
    else if Done(st.mem[plan[i]]) then HeadFrom(cfg, plan, st, i + 1, j, fetch)
    else if cfg.maxTargets.Some? && st.resolved >= cfg.maxTargets.value then None
    else
      var (s, x) := Target(cfg, st, plan[i], fetch);
      TargetKnows(cfg, st, plan[i], fetch);
      if x == Halted then None else HeadFrom(cfg, plan, s, i + 1, j, fetch)
  }

  /** The state in which a whole run comes to target `j`. */
  function HeadOf(cfg: Config, plan: seq<nat>, log: seq<Event>, j: nat, fetch: Oracle): Option<St>
    requires j <= |plan|
  {
    if cfg.maxAttempts == 0 || cfg.checkpointRequests == 0 then None
    else
      var st := Recover(plan, Load(plan, log), 0);
      if Refused(cfg, ActiveStop(st.log, |st.log|)) then None
      else
        var calls := CallsSince(st.log);
        HeadFrom(cfg, plan, Check(cfg, st.(calls := calls), calls > 0 || (st.log != [] && !cfg.hasManifest)), 0, j, fetch)
  }

  // ---- a turn that goes on appends no stop -----------------------------------------------------

  /** `log` continues `base` without a stop. */
  ghost predicate NoStops(base: seq<Event>, log: seq<Event>) {
    base <= log && forall i :: |base| <= i < |log| ==> !log[i].Stopped?
  }

  lemma {:induction false} NoStopsTrans(a: seq<Event>, b: seq<Event>, c: seq<Event>)
    requires NoStops(a, b) && NoStops(b, c)
    ensures NoStops(a, c)
  {
    forall i | |a| <= i < |c| ensures !c[i].Stopped? {
      if i < |b| {
        assert c[i] == b[i];
      }
    }
  }

  lemma {:induction false} AttemptsAppendNoStop(cfg: Config, st: St, v: nat, attempt: nat, fetch: Oracle)
    requires v in st.mem
    ensures var r := Attempts(cfg, st, v, attempt, fetch); r.1 != Halted ==> NoStops(st.log, r.0.log)
    decreases cfg.maxAttempts + 1 - attempt
  {
    if attempt <= cfg.maxAttempts {
      var a := fetch(st.asked);
      if a.Raised? {
        var s2 := Fail(Start(st, v, attempt), v, attempt, a.kind);
        assert NoStops(st.log, s2.log);
        if Judge(cfg, a.kind, a.retryAfter, s2.mem[v].rate, attempt).Again? {
          var s3 := Check(cfg, s2, false);
          NoStopsTrans(st.log, s2.log, s3.log);
          AttemptsAppendNoStop(cfg, s3, v, attempt + 1, fetch);
          var r := Attempts(cfg, s3, v, attempt + 1, fetch);
          if r.1 != Halted {
            NoStopsTrans(st.log, s3.log, r.0.log);
          }
        }
      }
    }
  }

  lemma {:induction false} ConcludeAppendsNoStop(cfg: Config, s: St, v: nat, x: Exit)
    requires v in s.mem
    ensures NoStops(s.log, Conclude(cfg, s, v, x).0.log)
  {
  }

  lemma {:induction false} TargetAppendsNoStop(cfg: Config, st: St, v: nat, fetch: Oracle)
    requires v in st.mem && Target(cfg, st, v, fetch).1 != Halted
    ensures NoStops(st.log, Target(cfg, st, v, fetch).0.log)
  {
    var r := Attempts(cfg, st, v, st.mem[v].attempts + 1, fetch);
    AttemptsKnow(cfg, st, v, st.mem[v].attempts + 1, fetch);
    AttemptsAppendNoStop(cfg, st, v, st.mem[v].attempts + 1, fetch);
    var c := Conclude(cfg, r.0, v, r.1);
    TargetTries(cfg, st, v, fetch, r, c);
    ConcludeAppendsNoStop(cfg, r.0, v, r.1);
    NoStopsTrans(st.log, r.0.log, c.0.log);
  }

  // ---- without a new stop, no older stop becomes active ----------------------------------------

  /** Nothing after place `i` resumed the stop that stands there. */
  ghost predicate Unanswered(log: seq<Event>, i: nat) {
    i < |log| && log[i].Stopped? && !exists j :: i + 1 <= j < |log| && Answers(log[j], log[i].video)
  }

  /** The active stop is the newest one that nothing resumed. */
  lemma {:induction false} ActiveIsNewest(log: seq<Event>, n: nat) returns (i: int)
    requires n <= |log|
    ensures ActiveStop(log, n).None? ==> forall j: nat :: j < n ==> !Unanswered(log, j)
    ensures ActiveStop(log, n).Some? ==>
      0 <= i < n && Unanswered(log, i) && ActiveStop(log, n) == Some(log[i]) && forall j: nat :: i < j < n ==> !Unanswered(log, j)
    decreases n
  {
    i := -1;
    if n > 0 {
      if Unanswered(log, n - 1) {
        i := n - 1;
      } else {
        i := ActiveIsNewest(log, n - 1);
      }
    }
  }

  /** Stops of two targets: the older one was answered before the newer one. */
  lemma {:induction false} OlderStopIsAnswered(plan: seq<nat>, max: nat, log: seq<Event>, i: nat, j: nat)
    requires ValidPlan(plan) && Legal(plan, max, log) && i < j < |log|
    requires log[i].Stopped? && log[j].Stopped? && log[i].video != log[j].video
    ensures !Unanswered(log, i)
  {
    var v := log[i].video;
    AllowedAt(plan, max, log, i);
    AllowedAt(plan, max, log, j);
    var k: nat :| OpenAt(plan, log[..i], k) && plan[k] == v && Timely(max, log[..i], log[i]);
    var l: nat :| OpenAt(plan, log[..j], l) && plan[l] == log[j].video && Timely(max, log[..j], log[j]);
    assert log[..j][..i] == log[..i];
    if l < k {
      EndedStays(plan, max, log[..j], i, plan[l]);
      assert false;
    }
    var e := EndIsLogged(log[..j], v);
    if e < i {
      EndsAtTerminal(log[..i], e);
      assert log[..i][..e + 1] == log[..e + 1];
      LegalPrefix(plan, max, log, i);
      EndedStays(plan, max, log[..i], e + 1, v);
      assert false;
    }
    assert i + 1 <= e && Answers(log[e], v);
  }

  /** A log that goes on without a new stop has the same active stop, or none. */
  lemma {:induction false} ActiveStopFades(plan: seq<nat>, max: nat, log: seq<Event>, more: seq<Event>)
    requires ValidPlan(plan) && Legal(plan, max, log) && NoStops(log, more)
    ensures ActiveStop(more, |more|).None? || ActiveStop(more, |more|) == ActiveStop(log, |log|)
  {
    if ActiveStop(more, |more|).Some? {
      var i := ActiveIsNewest(more, |more|);
      assert i < |log| && log[i] == more[i];
      UnansweredBefore(log, more, i);
      var n := ActiveIsNewest(log, |log|);
      if i < n {
        assert more[n] == log[n] && !Unanswered(more, n);
        OlderStopIsAnswered(plan, max, log, i, n);
      }
    }
  }

  lemma {:induction false} UnansweredBefore(log: seq<Event>, more: seq<Event>, i: nat)
    requires log <= more && i < |log| && Unanswered(more, i)
    ensures Unanswered(log, i)
  {
    forall j | i + 1 <= j < |log| ensures !Answers(log[j], log[i].video) {
      assert more[j] == log[j];
    }
  }

  // ---- at the head of every turn ---------------------------------------------------------------

  /** What a restart needs of a state between two targets. */
  ghost predicate Restartable(cfg: Config, plan: seq<nat>, j: nat, s: St) {
    && ValidPlan(plan) && Legal(plan, cfg.maxAttempts, s.log) && Agrees(plan, s) && j <= |plan|
    && (forall l :: 0 <= l < j ==> Ended(s.log, plan[l]))
    && !Refused(cfg, ActiveStop(s.log, |s.log|))
  }

  lemma {:induction false} TurnKeeps(cfg: Config, plan: seq<nat>, st: St, i: nat, fetch: Oracle)
    requires Restartable(cfg, plan, i, st) && i < |plan|
    requires !Done(st.mem[plan[i]]) && Target(cfg, st, plan[i], fetch).1 != Halted
    ensures Restartable(cfg, plan, i + 1, Target(cfg, st, plan[i], fetch).0)
  {
    AgreeingIsWorking(plan, cfg.maxAttempts, st, i);
    var t := TargetEnds(cfg, plan, st, i, fetch);
    TargetAppendsNoStop(cfg, st, plan[i], fetch);
    ActiveStopFades(plan, cfg.maxAttempts, st.log, t.0.log);
  }

  /** From a restartable state on, every head of a turn is restartable, and the loop goes on from
      there to the same end. */
  lemma {:induction false} HeadsFrom(cfg: Config, plan: seq<nat>, st: St, i: nat, j: nat, fetch: Oracle)
    requires Restartable(cfg, plan, i, st) && i <= j <= |plan| && HeadFrom(cfg, plan, st, i, j, fetch).Some?
    ensures var s := HeadFrom(cfg, plan, st, i, j, fetch).value;
      && Restartable(cfg, plan, j, s) && st.log <= s.log
      && Targets(cfg, plan, st, i, fetch) == Targets(cfg, plan, s, j, fetch)
    decreases j - i
  {
    hide Target, Legal, Replay, Refused, ActiveStop;
    if i < j {
      assert AgreesOn(st, plan[i]);
      if Done(st.mem[plan[i]]) {
        HeadsFrom(cfg, plan, st, i + 1, j, fetch);
      } else {
        TurnKeeps(cfg, plan, st, i, fetch);
        TargetAppendsNoStop(cfg, st, plan[i], fetch);
        HeadsFrom(cfg, plan, Target(cfg, st, plan[i], fetch).0, i + 1, j, fetch);
      }
    }
  }

  lemma {:induction false} EntryAddsNoStop(cfg: Config, st: St, force: bool)
    ensures NoStops(st.log, Check(cfg, st, force).log)
  {
  }

  lemma {:induction false} EntryNotRefused(cfg: Config, plan: seq<nat>, log: seq<Event>, j: nat, fetch: Oracle)
    requires j <= |plan| && HeadOf(cfg, plan, log, j, fetch).Some?
    ensures var st := Recover(plan, Load(plan, log), 0); !Refused(cfg, ActiveStop(st.log, |st.log|))
  {
  }

  /** A run that gets to target `j`: the state it enters its loop in. */
  lemma {:induction false} HeadHasEntry(cfg: Config, plan: seq<nat>, log: seq<Event>, j: nat, fetch: Oracle) returns (ready: St)
    requires ValidPlan(plan) && Legal(plan, cfg.maxAttempts, log) && j <= |plan| && HeadOf(cfg, plan, log, j, fetch).Some?
    ensures Restartable(cfg, plan, 0, ready) && log <= ready.log && Knows(plan, ready)
    ensures HeadOf(cfg, plan, log, j, fetch) == HeadFrom(cfg, plan, ready, 0, j, fetch)
    ensures RunLog(cfg, plan, log, fetch) == EndOf(cfg, Targets(cfg, plan, ready, 0, fetch))
  {
    var st := RecoveredLegal(plan, cfg.maxAttempts, log);
    EntryNotRefused(cfg, plan, log, j, fetch);
    hide Targets, HeadFrom, HeadOf, RunLog, EndOf, Recover, Load, Legal, Replay, Agrees, ActiveStop, Refused, CallsSince;
    ready := ReadyLegal(cfg, plan, st);
    EntryAddsNoStop(cfg, st.(calls := CallsSince(st.log)), CallsSince(st.log) > 0 || (st.log != [] && !cfg.hasManifest));
    ActiveStopFades(plan, cfg.maxAttempts, st.log, ready.log);
    EntryUnfolds(cfg, plan, log, j, fetch, st, ready);
  }

  lemma {:induction false} EntryUnfolds(cfg: Config, plan: seq<nat>, log: seq<Event>, j: nat, fetch: Oracle, st: St, ready: St)
    requires st == Recover(plan, Load(plan, log), 0) && Knows(plan, ready) && j <= |plan|
    requires var calls := CallsSince(st.log); ready == Check(cfg, st.(calls := calls), calls > 0 || (st.log != [] && !cfg.hasManifest))
    requires HeadOf(cfg, plan, log, j, fetch).Some?
    ensures HeadOf(cfg, plan, log, j, fetch) == HeadFrom(cfg, plan, ready, 0, j, fetch)
    ensures RunLog(cfg, plan, log, fetch) == EndOf(cfg, Targets(cfg, plan, ready, 0, fetch))
  {
  }

  /** At the head of every turn of every run: the memory is the fold of the log, all targets before
      it have ended, no stop refuses to go on, and the rest of the run is the loop from there. */
  lemma {:induction false} HeadsAgree(cfg: Config, plan: seq<nat>, log: seq<Event>, j: nat, fetch: Oracle)
    requires ValidPlan(plan) && Legal(plan, cfg.maxAttempts, log) && j <= |plan|
    ensures var h := HeadOf(cfg, plan, log, j, fetch);
      h.Some? ==>
        && cfg.maxAttempts > 0 && cfg.checkpointRequests > 0
        && Restartable(cfg, plan, j, h.value) && log <= h.value.log
        && RunLog(cfg, plan, log, fetch) == EndOf(cfg, Targets(cfg, plan, h.value, j, fetch))
  {
    hide Targets, Target, Legal, Replay, Refused, Recover, Load;
    var h := HeadOf(cfg, plan, log, j, fetch);
    if h.Some? {
      var ready := HeadHasEntry(cfg, plan, log, j, fetch);
      HeadsFrom(cfg, plan, ready, 0, j, fetch);
    }
  }

  /** The log when the loop is over: a run that finished ends with a checkpoint. */
  function EndOf(cfg: Config, r: (St, Exit)): seq<Event> {
    if r.1 == Finished then Check(cfg, r.0, true).log else r.0.log
  }

  lemma {:induction false} EndStrips(cfg: Config, r: (St, Exit))
    ensures Strip(EndOf(cfg, r)) == Strip(r.0.log)
  {
    StripSnoc(r.0.log, Checkpoint);
  }

  lemma {:induction false} HeadIsInRun(cfg: Config, plan: seq<nat>, s: St, j: nat, fetch: Oracle)
    requires Restartable(cfg, plan, j, s)
    ensures s.log <= EndOf(cfg, Targets(cfg, plan, s, j, fetch))
  {
    TargetsLegal(cfg, plan, s, j, fetch);
  }

  /** A process that dies between two targets, at any turn of any run, and is started again on the
      log it left goes on as the uninterrupted run would: the same requests in the same order, the
      same failures, stops and outcomes; only checkpoints may differ.  A limit on newly resolved targets
      counts per process, so the new one is given what remains of it. */
  lemma {:induction false} RestartContinues(cfg: Config, plan: seq<nat>, log: seq<Event>, j: nat, fetch: Oracle)
    requires ValidPlan(plan) && Legal(plan, cfg.maxAttempts, log) && j <= |plan|
    ensures var h := HeadOf(cfg, plan, log, j, fetch);
      h.Some? ==>
        var crashed := CutRun(plan, log, RunInput(cfg, fetch, |h.value.log|));
        && crashed == h.value.log
        && Strip(RunLog(Remaining(cfg, h.value.resolved), plan, crashed, Later(fetch, h.value.asked))) == Strip(RunLog(cfg, plan, log, fetch))
  {
    hide Targets, Target, Strip, Legal, Replay, HeadFrom, HeadOf, EndOf, Refused, ActiveStop;
    var h := HeadOf(cfg, plan, log, j, fetch);
    if h.Some? {
      var s := h.value;
      HeadsAgree(cfg, plan, log, j, fetch);
      HeadIsInRun(cfg, plan, s, j, fetch);
      forall l | 0 <= l < j ensures Done(s.mem[plan[l]]) {
        assert AgreesOn(s, plan[l]);
      }
      RestartFrom(cfg, plan, s, j, fetch);
      EndStrips(cfg, Targets(cfg, plan, s, j, fetch));
    }
  }

  // ---- a request left in flight, over all later runs -------------------------------------------

  ghost predicate StartsAgain(log: seq<Event>, n: nat, v: nat) {
    exists i :: n <= i < |log| && log[i].Started? && log[i].video == v
  }

  /** No later runs, whatever their options, answers and cuts, start a request for the target. */
  ghost predicate NeverAgain(plan: seq<nat>, max: nat, log: seq<Event>, v: nat) {
    forall runs :: SameLimit(runs, max) ==> !StartsAgain(Runs(plan, log, runs), |log|, v)
  }

  lemma {:induction false} AttemptsOnlyGrow(log: seq<Event>, more: seq<Event>, v: nat)
    requires log <= more
    ensures Replay(log, v).attempts <= Replay(more, v).attempts
    decreases |more|
  {
    if log != more {
      AttemptsOnlyGrow(log, more[..|more| - 1], v);
    }
  }

  /** A target whose attempts are used up is never asked for again. */
  lemma {:induction false} UsedUpIsOver(plan: seq<nat>, max: nat, log: seq<Event>, v: nat)
    requires ValidPlan(plan) && Legal(plan, max, log) && Replay(log, v).attempts == max
    ensures NeverAgain(plan, max, log, v)
  {
    forall runs | SameLimit(runs, max) ensures !StartsAgain(Runs(plan, log, runs), |log|, v) {
      RunsLegal(plan, max, log, runs);
      var full := Runs(plan, log, runs);
      if StartsAgain(full, |log|, v) {
        var i :| |log| <= i < |full| && full[i].Started? && full[i].video == v;
        AllowedAt(plan, max, full, i);
        AttemptsOnlyGrow(log, full[..i], v);
        assert false;
      }
    }
  }

  /** A run either appends nothing or starts with what its recovery appends. */
  lemma {:induction false} RunStartsRecovered(cfg: Config, plan: seq<nat>, log: seq<Event>, fetch: Oracle)
    requires ValidPlan(plan) && Legal(plan, cfg.maxAttempts, log)
    ensures var full := RunLog(cfg, plan, log, fetch); full == log || Recover(plan, Load(plan, log), 0).log <= full
  {
    if cfg.maxAttempts != 0 && cfg.checkpointRequests != 0 {
      var st := RecoveredLegal(plan, cfg.maxAttempts, log);
      if !Refused(cfg, ActiveStop(st.log, |st.log|)) {
        var ready := ReadyLegal(cfg, plan, st);
        var r, end := LoopLegal(cfg, plan, ready, fetch);
        assert RunLog(cfg, plan, log, fetch) == end;
      }
    }
  }

  /** A settled target is left alone by every later run. */
  lemma {:induction false} SettledStaysSettled(plan: seq<nat>, max: nat, log: seq<Event>, v: nat, next: seq<Event>, runs: seq<RunInput>)
    requires ValidPlan(plan) && Legal(plan, max, next) && SameLimit(runs, max)
    requires |log| < |next| && Ended(next[..|log| + 1], v) && !next[|log|].Started?
    ensures !StartsAgain(Runs(plan, next, runs), |log|, v)
  {
    RunsLegal(plan, max, next, runs);
    var full := Runs(plan, next, runs);
    assert full[..|log| + 1] == next[..|log| + 1] && full[|log|] == next[|log|];
    EndedStays(plan, max, full, |log| + 1, v);
  }

  /** A request in flight that is not behind a stop is settled by the first run that appends
      anything, and never sent again. */
  lemma {:induction false} SettledByNextRun(plan: seq<nat>, max: nat, log: seq<Event>, k: nat, runs: seq<RunInput>)
    requires ValidPlan(plan) && Legal(plan, max, log) && OpenAt(plan, log, k) && Replay(log, plan[k]).open > 0
    requires !LastIsStop(Replay(log, plan[k])) && SameLimit(runs, max)
    ensures !StartsAgain(Runs(plan, log, runs), |log|, plan[k])
    decreases |runs|
  {
    if runs != [] {
      var run := runs[0];
      var next := CutRun(plan, log, run);
      if next == log {
        SettledByNextRun(plan, max, log, k, runs[1..]);
      } else {
        NextIsSettled(plan, log, k, run);
        CutLegal(plan, log, run);
        SettledStaysSettled(plan, max, log, plan[k], next, runs[1..]);
      }
    }
  }

  lemma {:induction false} NextIsSettled(plan: seq<nat>, log: seq<Event>, k: nat, run: RunInput)
    requires ValidPlan(plan) && Legal(plan, run.cfg.maxAttempts, log) && OpenAt(plan, log, k) && Replay(log, plan[k]).open > 0
    requires !LastIsStop(Replay(log, plan[k])) && CutRun(plan, log, run) != log
    ensures var next := CutRun(plan, log, run);
      |log| < |next| && Ended(next[..|log| + 1], plan[k]) && !next[|log|].Started?
  {
    var next := CutRun(plan, log, run);
    var e := Exception(plan[k], Replay(log, plan[k]).attempts, InFlightUnknown);
    InFlightSettledIff(plan, run.cfg.maxAttempts, log, k);
    RunStartsRecovered(run.cfg, plan, log, run.fetch);
    CutLegal(plan, log, run);
    assert next[..|log| + 1] == log + [e];
    assert next[|log|] == (log + [e])[|log|];
    ReplaySnoc(log, e, plan[k]);
  }

  /** A request that a crash left in flight is never sent again, by any later runs and cuts, if and
      only if the newest answer of its target is not a stop, or its attempts are used up. */
  lemma {:induction false} NeverAgainIff(plan: seq<nat>, max: nat, log: seq<Event>, k: nat)
    requires ValidPlan(plan) && Legal(plan, max, log) && OpenAt(plan, log, k) && Replay(log, plan[k]).open > 0
    ensures var m := Replay(log, plan[k]); NeverAgain(plan, max, log, plan[k]) <==> !LastIsStop(m) || m.attempts == max
  {
    var m := Replay(log, plan[k]);
    LegalBounds(plan, max, log, plan[k]);
    if !LastIsStop(m) {
      forall runs | SameLimit(runs, max) ensures !StartsAgain(Runs(plan, log, runs), |log|, plan[k]) {
        SettledByNextRun(plan, max, log, k, runs);
      }
    } else if m.attempts == max {
      UsedUpIsOver(plan, max, log, plan[k]);
    } else {
      if m.rate == 2 {
        OpenStreakIsInFlight(plan, max, log, plan[k]);
      }
      ReissuedInOneRun(plan, max, log, k);
    }
  }

  lemma {:induction false} ReissuedInOneRun(plan: seq<nat>, max: nat, log: seq<Event>, k: nat)
    requires ValidPlan(plan) && Legal(plan, max, log) && OpenAt(plan, log, k) && Replay(log, plan[k]).open > 0
    requires var m := Replay(log, plan[k]); LastIsStop(m) && m.attempts < max && m.rate < 2
    ensures !NeverAgain(plan, max, log, plan[k])
  {
    hide RunLog, Replay, Legal;
    var fetch: Oracle := (n: nat) => Usable;
    HiddenRequestIsReissued(plan, max, log, k, fetch);
    var full := RunLog(Eager(max), plan, log, fetch);
    var run := RunInput(Eager(max), fetch, |full|);
    assert CutRun(plan, log, run) == full;
    assert Runs(plan, full, [run][1..]) == full;
    assert Runs(plan, log, [run]) == full;
    assert SameLimit([run], max) && StartsAgain(Runs(plan, log, [run]), |log|, plan[k]);
  }
}
