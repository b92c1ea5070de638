/** Exactly when a harvest run sends a request at all. */
module HarvestStarts {
  import opened Wrappers
  import opened Harvest
  import opened HarvestSafety
  import opened HarvestStreak
  import opened HarvestOutcomes
  import opened HarvestRestart

  // ---- the condition, on the log and the options -----------------------------------------------

  /** The stop at place `i` is in force: nothing resumed it, and nothing after it is in force. */
  ghost predicate InForce(log: seq<Event>, i: nat) {
    Unanswered(log, i) && forall j: nat :: i < j < |log| ==> !Unanswered(log, j)
  }

  /** What an operator's options cannot lift, or do not. */
  predicate Binds(cfg: Config, stop: Event)
    requires stop.Stopped?
  {
    || !cfg.resume
    || stop.reason == PersistentRateLimit
    || (stop.wait && !cfg.notBeforePassed)
  }

  /** The failure at place `j` is the newest one of target `v`. */
  ghost predicate NewestFailure(log: seq<Event>, v: nat, j: nat) {
    j < |log| && log[j].Failed? && log[j].video == v && forall i :: j < i < |log| && log[i].Failed? ==> log[i].video != v
  }

  /** After a rate limit, an authentication failure or a risk control a target waits for the operator. */
  predicate Waits(kind: Kind) {
    kind == RateLimit || kind == AuthRequired || kind == RiskControl
  }

  /** Target `v` may be asked for. */
  ghost predicate MayStart(cfg: Config, log: seq<Event>, v: nat) {
    && (forall i: nat :: InForce(log, i) ==> !Binds(cfg, log[i]))
    && (cfg.resume || forall j: nat :: NewestFailure(log, v, j) ==> !Waits(log[j].kind))
    && Replay(log, v).rate < 2
  }

  // ---- the code's tests say the same -----------------------------------------------------------

  lemma {:induction false} NewestFailureIs(log: seq<Event>, v: nat) returns (j: int)
    ensures LastFailure(log, v).None? ==> forall i: nat :: !NewestFailure(log, v, i)
    ensures LastFailure(log, v).Some? ==> j >= 0 && NewestFailure(log, v, j) && LastFailure(log, v) == Some(log[j].kind)
    decreases |log|
  {
    j := -1;
    if log != [] {
      var init, n := log[..|log| - 1], |log| - 1;
      if log[n].Failed? && log[n].video == v {
        j := n;
      } else {
        j := NewestFailureIs(init, v);
        forall i: nat | NewestFailure(log, v, i) ensures NewestFailure(init, v, i) {
          forall m | i < m < |init| && init[m].Failed? ensures init[m].video != v {
            assert log[m] == init[m];
          }
        }
      }
    }
  }

  lemma {:induction false} WaitsIff(cfg: Config, log: seq<Event>, v: nat)
    ensures (NeedsResume(LastFailure(log, v)) && !cfg.resume)
      <==> !(cfg.resume || forall j: nat :: NewestFailure(log, v, j) ==> !Waits(log[j].kind))
  {
    var j := NewestFailureIs(log, v);
    if LastFailure(log, v).Some? {
      forall i: nat | NewestFailure(log, v, i) ensures i == j {
      }
    }
  }

  lemma {:induction false} RefusedIff(cfg: Config, log: seq<Event>)
    ensures Refused(cfg, ActiveStop(log, |log|)) <==> exists i: nat :: InForce(log, i) && Binds(cfg, log[i])
  {
    var i := ActiveIsNewest(log, |log|);
    if ActiveStop(log, |log|).Some? {
      assert InForce(log, i);
      forall j: nat | InForce(log, j) ensures i == j {
      }
    }
  }

  lemma {:induction false} CheckpointKeepsFailure(log: seq<Event>, v: nat)
    ensures LastFailure(log + [Checkpoint], v) == LastFailure(log, v)
  {
    assert (log + [Checkpoint])[..|log|] == log;
  }

  // ---- the run ---------------------------------------------------------------------------------

  /** The loop walks over the ended targets and halts at the first open one. */
  lemma {:induction false} HaltingTargets(cfg: Config, plan: seq<nat>, st: St, i: nat, k: nat, fetch: Oracle)
    requires Knows(plan, st) && i <= k < |plan| && WantsMore(cfg, st)
    requires forall j :: 0 <= j < k ==> Done(st.mem[plan[j]])
    requires !Done(st.mem[plan[k]]) && HaltsAtOnce(cfg, st, plan[k])
    ensures Targets(cfg, plan, st, i, fetch) == (Check(cfg, st, true), Halted)
    decreases k - i
  {
    hide LastFailure, NeedsResume;
    if i < k {
      HaltingTargets(cfg, plan, st, i + 1, k, fetch);
    } else {
      assert Target(cfg, st, plan[k], fetch) == (Check(cfg, st, true), Halted);
    }
  }

  /** The state in which the loop begins. */
  lemma {:induction false} Entry(cfg: Config, plan: seq<nat>, st: St, k: nat) returns (ready: St)
    requires ValidPlan(plan) && Legal(plan, cfg.maxAttempts, st.log) && Agrees(plan, st) && OpenAt(plan, st.log, k) && st.resolved == 0
    ensures var calls := CallsSince(st.log);
      ready == Check(cfg, st.(calls := calls), calls > 0 || (st.log != [] && !cfg.hasManifest))
    ensures Legal(plan, cfg.maxAttempts, ready.log) && Agrees(plan, ready) && OpenAt(plan, ready.log, k) && ready.resolved == 0
    ensures OnlyCheckpoints(st.log, ready.log) && Replay(ready.log, plan[k]) == Replay(st.log, plan[k])
    ensures HaltsAtOnce(cfg, ready, plan[k]) <==> (NeedsResume(LastFailure(st.log, plan[k])) && !cfg.resume) || Replay(st.log, plan[k]).rate >= 2
  {
    hide Legal, Replay, CallsSince, LastFailure, NeedsResume;
    ready := ReadyLegal(cfg, plan, st);
    assert ready.log == st.log || ready.log == st.log + [Checkpoint];
    forall j | 0 <= j < |plan| ensures Replay(ready.log, plan[j]) == Replay(st.log, plan[j]) {
      CheckpointsKeepReplay(st.log, ready.log, plan[j]);
    }
    CheckpointKeepsFailure(st.log, plan[k]);
    assert AgreesOn(ready, plan[k]);
  }

  lemma {:induction false} RunUnfolds(cfg: Config, plan: seq<nat>, log: seq<Event>, fetch: Oracle, st: St, ready: St, r: (St, Exit))
    requires cfg.maxAttempts > 0 && cfg.checkpointRequests > 0 && st == Recover(plan, Load(plan, log), 0)
    requires !Refused(cfg, ActiveStop(st.log, |st.log|))
    requires var calls := CallsSince(st.log);
      ready == Check(cfg, st.(calls := calls), calls > 0 || (st.log != [] && !cfg.hasManifest))
    requires Knows(plan, ready) && r == Targets(cfg, plan, ready, 0, fetch)
    ensures RunLog(cfg, plan, log, fetch) == EndOf(cfg, r)
  {
    hide Recover, Load, Refused, ActiveStop, CallsSince, Targets;
  }

  /** The first request a run sends, if it may send one. */
  lemma {:induction false} RunStarts(cfg: Config, plan: seq<nat>, st: St, ready: St, k: nat, fetch: Oracle)
    requires ValidPlan(plan) && WantsMore(cfg, ready) && Legal(plan, cfg.maxAttempts, ready.log) && Agrees(plan, ready) && OpenAt(plan, ready.log, k)
    requires Replay(ready.log, plan[k]).attempts < cfg.maxAttempts && !HaltsAtOnce(cfg, ready, plan[k])
    requires OnlyCheckpoints(st.log, ready.log)
    ensures var full := EndOf(cfg, Targets(cfg, plan, ready, 0, fetch));
      ready.log + [Started(plan[k], Replay(ready.log, plan[k]).attempts + 1)] <= full
  {
    hide Legal, Replay, Targets, HaltsAtOnce;
    ReachesNext(cfg, plan, ready, 0, k, fetch);
  }

  /** A run sends a request exactly when no stop in force binds it and the first open target waits
      neither for the operator nor for ever; the first one is then for that target. */
  lemma {:induction false} StartsIff(cfg: Config, plan: seq<nat>, log: seq<Event>, k: nat, fetch: Oracle)
    requires ValidPlan(plan) && Legal(plan, cfg.maxAttempts, log)
    requires cfg.maxAttempts > 0 && cfg.checkpointRequests > 0 && (cfg.maxTargets.Some? ==> cfg.maxTargets.value > 0)
    requires var settled := Recover(plan, Load(plan, log), 0).log;
      OpenAt(plan, settled, k) && Replay(settled, plan[k]).attempts < cfg.maxAttempts
    ensures var settled, full := Recover(plan, Load(plan, log), 0).log, RunLog(cfg, plan, log, fetch);
      && (StartsSomething(full, |log|) <==> MayStart(cfg, settled, plan[k]))
      && (MayStart(cfg, settled, plan[k]) ==>
            exists i :: |settled| <= i < |full| && OnlyCheckpoints(settled, full[..i])
              && full[i] == Started(plan[k], Replay(settled, plan[k]).attempts + 1))
  {
    hide Recover, Load, Legal, Replay, Refused, ActiveStop, CallsSince, Targets, MayStart, NeedsResume, LastFailure, RunLog;
    var st := RecoveredLegal(plan, cfg.maxAttempts, log);
    var full := RunLog(cfg, plan, log, fetch);
    RecoveryAddsNoStart(plan, log);
    MayStartIff(cfg, st.log, plan[k]);
    if Refused(cfg, ActiveStop(st.log, |st.log|)) {
      RefusedRun(cfg, plan, log, fetch);
    } else {
      var ready := Entry(cfg, plan, st, k);
      var r := Targets(cfg, plan, ready, 0, fetch);
      RunUnfolds(cfg, plan, log, fetch, st, ready, r);
      if HaltsAtOnce(cfg, ready, plan[k]) {
        DoneBefore(plan, ready, k);
        HaltingTargets(cfg, plan, ready, 0, k, fetch);
        QuietEnd(cfg, log, st.log, ready, full);
      } else {
        RunStarts(cfg, plan, st, ready, k, fetch);
        BusyEnd(log, st.log, ready.log, full, Started(plan[k], Replay(st.log, plan[k]).attempts + 1));
      }
    }
  }

  lemma {:induction false} MayStartIff(cfg: Config, log: seq<Event>, v: nat)
    ensures MayStart(cfg, log, v) <==>
      !Refused(cfg, ActiveStop(log, |log|)) && !(NeedsResume(LastFailure(log, v)) && !cfg.resume) && Replay(log, v).rate < 2
  {
    hide Refused, ActiveStop, Replay, InForce, Binds, NewestFailure, LastFailure, NeedsResume, Waits;
    RefusedIff(cfg, log);
    WaitsIff(cfg, log, v);
  }

  lemma {:induction false} RefusedRun(cfg: Config, plan: seq<nat>, log: seq<Event>, fetch: Oracle)
    requires var st := Recover(plan, Load(plan, log), 0); Refused(cfg, ActiveStop(st.log, |st.log|))
    requires cfg.maxAttempts > 0 && cfg.checkpointRequests > 0
    ensures RunLog(cfg, plan, log, fetch) == Recover(plan, Load(plan, log), 0).log
  {
    hide Recover, Load, Refused, ActiveStop;
  }

  lemma {:induction false} RecoveryAddsNoStart(plan: seq<nat>, log: seq<Event>)
    ensures var settled := Recover(plan, Load(plan, log), 0).log; log <= settled && !StartsSomething(settled, |log|)
  {
    hide Recover;
    RecoverAppends(plan, Load(plan, log), 0, log);
  }

  lemma {:induction false} DoneBefore(plan: seq<nat>, st: St, k: nat)
    requires Agrees(plan, st) && OpenAt(plan, st.log, k)
    ensures (forall j :: 0 <= j < k ==> Done(st.mem[plan[j]])) && !Done(st.mem[plan[k]])
  {
    forall j | 0 <= j <= k ensures Done(st.mem[plan[j]]) == Ended(st.log, plan[j]) {
      assert AgreesOn(st, plan[j]);
    }
  }

  lemma {:induction false} QuietEnd(cfg: Config, log: seq<Event>, settled: seq<Event>, ready: St, full: seq<Event>)
    requires log <= settled && !StartsSomething(settled, |log|) && OnlyCheckpoints(settled, ready.log) && full == Check(cfg, ready, true).log
    ensures !StartsSomething(full, |log|)
  {
    forall i | |log| <= i < |full| ensures !full[i].Started? {
      if i < |settled| {
        assert full[i] == settled[i];
      } else if i < |ready.log| {
        assert full[i] == ready.log[i];
      }
    }
  }

  lemma {:induction false} BusyEnd(log: seq<Event>, settled: seq<Event>, ready: seq<Event>, full: seq<Event>, e: Event)
    requires log <= settled && OnlyCheckpoints(settled, ready) && ready + [e] <= full && e.Started?
    ensures StartsSomething(full, |log|)
    ensures exists i :: |settled| <= i < |full| && OnlyCheckpoints(settled, full[..i]) && full[i] == e
  {
    assert full[..|ready|] == ready && full[|ready|] == e;
  }

  // ---- a run in which all goes well ------------------------------------------------------------

  ghost predicate AllUsable(fetch: Oracle) {
    forall n :: fetch(n).Usable?
  }

  /** A target that may be asked for ends at once. */
  lemma {:induction false} GoodTargetEnds(cfg: Config, st: St, v: nat, fetch: Oracle)
    requires v in st.mem && !HaltsAtOnce(cfg, st, v) && AllUsable(fetch) && !Done(st.mem[v])
    requires !(st.mem[v].latest.Seen? && st.mem[v].latest.e.Stopped?) || st.mem[v].attempts < cfg.maxAttempts
    ensures Target(cfg, st, v, fetch).1 == Resolved
  {
    hide LastFailure, NeedsResume;
    assert fetch(st.asked).Usable?;
    AttemptsKnow(cfg, st, v, st.mem[v].attempts + 1, fetch);
  }

  /** The target may be asked for, now or later in the loop. */
  predicate Askable(cfg: Config, m: Mem) {
    Done(m) || (m.rate < 2 && m.attempts < cfg.maxAttempts)
  }

  /** The same, on the log. */
  ghost predicate Unspent(cfg: Config, log: seq<Event>, v: nat) {
    Ended(log, v) || (Replay(log, v).rate < 2 && Replay(log, v).attempts < cfg.maxAttempts)
  }

  /** Every target is ended. */
  lemma {:induction false} GoodLoopEnds(cfg: Config, plan: seq<nat>, st: St, i: nat, fetch: Oracle)
    requires ValidPlan(plan) && Legal(plan, cfg.maxAttempts, st.log) && Agrees(plan, st) && i <= |plan|
    requires cfg.resume && cfg.maxTargets.None? && AllUsable(fetch)
    requires forall j :: 0 <= j < i ==> Ended(st.log, plan[j])
    requires forall j :: i <= j < |plan| ==> Askable(cfg, st.mem[plan[j]])
    ensures var r := Targets(cfg, plan, st, i, fetch); r.1 == Finished && forall j :: 0 <= j < |plan| ==> Ended(r.0.log, plan[j])
    decreases |plan| - i
  {
    hide Target, Legal, Replay, AllUsable;
    if i < |plan| {
      assert AgreesOn(st, plan[i]);
      if Done(st.mem[plan[i]]) {
        GoodLoopEnds(cfg, plan, st, i + 1, fetch);
      } else {
        AgreeingIsWorking(plan, cfg.maxAttempts, st, i);
        GoodTargetEnds(cfg, st, plan[i], fetch);
        TargetLegal(cfg, plan, st, i, fetch);
        var t := TargetEnds(cfg, plan, st, i, fetch);
        OthersAskable(cfg, plan, st, t.0, i);
        GoodLoopEnds(cfg, plan, t.0, i + 1, fetch);
      }
    }
  }

  lemma {:induction false} OthersAskable(cfg: Config, plan: seq<nat>, st: St, s: St, k: nat)
    requires ValidPlan(plan) && Knows(plan, st) && Knows(plan, s) && k < |plan| && Touched(plan, st, s, k)
    requires forall j :: k <= j < |plan| ==> Askable(cfg, st.mem[plan[j]])
    ensures forall j :: k + 1 <= j < |plan| ==> Askable(cfg, s.mem[plan[j]])
  {
  }

  /** When no stop in force binds the run, no streak blocks a target, and no open target has used up its
      attempts, a run whose every request is answered well ends every target. */
  lemma {:induction false} GoodRunEndsAll(cfg: Config, plan: seq<nat>, log: seq<Event>, fetch: Oracle)
    requires ValidPlan(plan) && Legal(plan, cfg.maxAttempts, log) && AllUsable(fetch)
    requires cfg.maxAttempts > 0 && cfg.checkpointRequests > 0 && cfg.resume && cfg.maxTargets.None?
    requires var settled := Recover(plan, Load(plan, log), 0).log;
      && (forall i: nat :: InForce(settled, i) ==> !Binds(cfg, settled[i]))
      && (forall j :: 0 <= j < |plan| ==> Unspent(cfg, settled, plan[j]))
    ensures forall j :: 0 <= j < |plan| ==> Ended(RunLog(cfg, plan, log, fetch), plan[j])
  {
    hide Recover, Load, Legal, Replay, Refused, ActiveStop, CallsSince, Targets, RunLog, InForce, Binds, AllUsable, Ended, Unspent;
    var st := RecoveredLegal(plan, cfg.maxAttempts, log);
    RefusedIff(cfg, st.log);
    var ready := ReadyLegal(cfg, plan, st);
    ReadyAskable(cfg, plan, st, ready);
    var r := Targets(cfg, plan, ready, 0, fetch);
    RunUnfolds(cfg, plan, log, fetch, st, ready, r);
    GoodLoopEnds(cfg, plan, ready, 0, fetch);
    LastCheckpointKeeps(cfg, plan, r.0);
  }

  lemma {:induction false} ReadyAskable(cfg: Config, plan: seq<nat>, st: St, ready: St)
    requires Agrees(plan, st) && Agrees(plan, ready) && ready.mem == st.mem
    requires forall j :: 0 <= j < |plan| ==> Unspent(cfg, st.log, plan[j])
    ensures forall j :: 0 <= j < |plan| ==> Askable(cfg, ready.mem[plan[j]])
  {
    hide Replay;
    forall j | 0 <= j < |plan| ensures Askable(cfg, ready.mem[plan[j]]) {
      assert AgreesOn(st, plan[j]);
    }
  }

  lemma {:induction false} LastCheckpointKeeps(cfg: Config, plan: seq<nat>, st: St)
    requires forall j :: 0 <= j < |plan| ==> Ended(st.log, plan[j])
    ensures forall j :: 0 <= j < |plan| ==> Ended(Check(cfg, st, true).log, plan[j])
  {
    hide Replay;
    forall j | 0 <= j < |plan| ensures Ended(Check(cfg, st, true).log, plan[j]) {
      ReplaySnoc(st.log, Checkpoint, plan[j]);
    }
  }
}
