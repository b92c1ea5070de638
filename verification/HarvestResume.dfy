/** What a restart does: requests in flight, and the equivalence of a restarted and an
    uninterrupted run. */
module HarvestResume {
  import opened Wrappers
  import opened Harvest
  import opened HarvestSafety
  import opened HarvestStreak

  // ---- requests left in flight ----------------------------------------------------------------

  /** An unanswered start is newer than every stop of its target. */
  lemma {:induction false} OpenStart(log: seq<Event>, v: nat) returns (j: nat)
    requires Replay(log, v).open > 0
    ensures j < |log| && log[j].Started? && log[j].video == v
    ensures forall i :: j < i < |log| && log[i].Stopped? ==> log[i].video != v
    decreases |log|
  {
    var init, e := log[..|log| - 1], log[|log| - 1];
    assert log == init + [e];
    ReplaySnoc(init, e, v);
    if e.Started? && e.video == v {
      j := |log| - 1;
    } else {
      j := OpenStart(init, v);
      assert forall i :: j < i < |init| ==> log[i] == init[i];
    }
  }

  /** Between a request that was never answered and the next run no stop is active. */
  lemma {:induction false} NoActiveStop(plan: seq<nat>, max: nat, log: seq<Event>, k: nat, n: nat)
    requires ValidPlan(plan) && Legal(plan, max, log) && OpenAt(plan, log, k) && Replay(log, plan[k]).open > 0
    requires n <= |log|
    ensures ActiveStop(log, n).None?
    decreases n
  {
    if n > 0 {
      NoActiveStop(plan, max, log, k, n - 1);
      if log[n - 1].Stopped? {
        var v := log[n - 1].video;
        EventsAreEarly(plan, max, log, k, n - 1);
        var j: nat;
        if v == plan[k] {
          j := OpenStart(log, v);
        } else {
          j := EndIsLogged(log, v);
          EndsAtTerminal(log, j);
          EndedStays(plan, max, log, j + 1, v);
        }
        assert n <= j && Answers(log[j], v);
      }
    }
  }

  predicate LastIsStop(m: Replayed) {
    m.last.Some? && m.last.value.Stopped?
  }

  /** Behind a stop nothing is recovered. */
  lemma {:induction false} NothingInFlight(plan: seq<nat>, max: nat, log: seq<Event>, k: nat)
    requires ValidPlan(plan) && Legal(plan, max, log) && OpenAt(plan, log, k) && Replay(log, plan[k]).open > 0
    requires LastIsStop(Replay(log, plan[k]))
    ensures Recover(plan, Load(plan, log), 0) == Load(plan, log)
  {
    var st := Load(plan, log);
    LoadIsLoaded(plan, log);
    forall j | 0 <= j < |plan| ensures st.mem[plan[j]].latest != InFlight {
      if j > k {
        LaterTargetsAreFresh(plan, max, log, k, j);
      }
    }
    NothingToRecover(plan, st, 0);
  }

  /** A request that a crash left in flight becomes an exception at the next start, before
      anything else is appended, if and only if the target's newest answer is not a stop. */
  lemma {:induction false} InFlightSettledIff(plan: seq<nat>, max: nat, log: seq<Event>, k: nat)
    requires ValidPlan(plan) && Legal(plan, max, log) && OpenAt(plan, log, k) && Replay(log, plan[k]).open > 0
    ensures var m := Replay(log, plan[k]);
      var recovered := Recover(plan, Load(plan, log), 0).log;
      && (!LastIsStop(m) <==> recovered == log + [Exception(plan[k], m.attempts, InFlightUnknown)])
      && (LastIsStop(m) <==> recovered == log)
  {
    var v, recovered := plan[k], Recover(plan, Load(plan, log), 0).log;
    var settled := log + [Exception(v, Replay(log, v).attempts, InFlightUnknown)];
    assert |settled| != |log|;
    if LastIsStop(Replay(log, v)) {
      assert recovered == log by {
        NothingInFlight(plan, max, log, k);
      }
    } else {
      assert recovered == settled by {
        LastIsDecisive(log, v);
        InFlightRecovery(plan, max, log, k);
      }
    }
  }

  lemma {:induction false} LastIsDecisive(log: seq<Event>, v: nat)
    ensures var m := Replay(log, v); m.last.Some? ==> m.last.value.Failed? || m.last.value.Stopped? || Terminal(m.last.value)
    decreases |log|
  {
    if log != [] {
      LastIsDecisive(log[..|log| - 1], v);
    }
  }

  /** Every run keeps what the recovery appended, so the settled request is never sent again;
      this holds for every later sequence of runs and cuts. */
  lemma {:induction false} SettledRequestIsNeverReissued(plan: seq<nat>, max: nat, log: seq<Event>, k: nat, runs: seq<RunInput>, i: nat)
    requires ValidPlan(plan) && Legal(plan, max, log) && OpenAt(plan, log, k) && Replay(log, plan[k]).open > 0
    requires !LastIsStop(Replay(log, plan[k])) && SameLimit(runs, max)
    requires var settled := Recover(plan, Load(plan, log), 0).log; |settled| <= i < |Runs(plan, settled, runs)|
    ensures !About(Runs(plan, Recover(plan, Load(plan, log), 0).log, runs)[i], plan[k])
  {
    hide Targets, Recover, Replay;
    InFlightSettledIff(plan, max, log, k);
    LoadIsLoaded(plan, log);
    var _ := RecoverLegal(plan, max, Load(plan, log), 0);
    var settled := Recover(plan, Load(plan, log), 0).log;
    RunsLegal(plan, max, settled, runs);
    var full := Runs(plan, settled, runs);
    assert full[..|settled|] == settled;
    EndsAtTerminal(settled, |log|);
    assert settled[..|log| + 1] == settled;
    EndedStays(plan, max, full, |settled|, plan[k]);
  }

  /** Behind a stop the in-flight request is not settled: a resumed run sends it again. */
  lemma {:induction false} HiddenRequestIsReissued(plan: seq<nat>, max: nat, log: seq<Event>, k: nat, fetch: Oracle)
    requires ValidPlan(plan) && Legal(plan, max, log) && OpenAt(plan, log, k) && Replay(log, plan[k]).open > 0
    requires var m := Replay(log, plan[k]); LastIsStop(m) && m.attempts < max && m.rate < 2
    ensures var full := RunLog(Eager(max), plan, log, fetch);
      exists i :: |log| <= i < |full| && full[i] == Started(plan[k], Replay(log, plan[k]).attempts + 1)
  {
    var next := Started(plan[k], Replay(log, plan[k]).attempts + 1);
    var ready, full := HiddenRun(plan, max, log, k, fetch, next);
    assert full[|ready.log|] == next;
  }

  lemma {:induction false} HiddenRun(plan: seq<nat>, max: nat, log: seq<Event>, k: nat, fetch: Oracle, next: Event) returns (ready: St, full: seq<Event>)
    requires ValidPlan(plan) && Legal(plan, max, log) && OpenAt(plan, log, k) && Replay(log, plan[k]).open > 0
    requires var m := Replay(log, plan[k]); LastIsStop(m) && m.attempts < max && m.rate < 2 && next == Started(plan[k], m.attempts + 1)
    ensures full == RunLog(Eager(max), plan, log, fetch) && |log| <= |ready.log|
    ensures ready.log + [next] <= full
  {
    var st := HiddenState(plan, max, log, k);
    var end;
    assert next == Started(plan[k], Replay(st.log, plan[k]).attempts + 1);
    ready, end := EagerLoopReaches(plan, max, st, k, fetch, next);
    full := LoopIsKept(plan, max, log, fetch, st, ready, end);
  }

  lemma {:induction false} LoopIsKept(plan: seq<nat>, max: nat, log: seq<Event>, fetch: Oracle, st: St, ready: St, end: seq<Event>) returns (full: seq<Event>)
    requires max > 0 && st == Recover(plan, Load(plan, log), 0) && !Refused(Eager(max), ActiveStop(st.log, |st.log|))
    requires ready == Check(Eager(max), st.(calls := CallsSince(st.log)), CallsSince(st.log) > 0)
    requires Knows(plan, ready) && end == Targets(Eager(max), plan, ready, 0, fetch).0.log
    ensures full == RunLog(Eager(max), plan, log, fetch) && end <= full
  {
    full := RunLog(Eager(max), plan, log, fetch);
    EagerRunIsItsLoop(plan, max, log, fetch);
  }

  lemma {:induction false} HiddenState(plan: seq<nat>, max: nat, log: seq<Event>, k: nat) returns (st: St)
    requires ValidPlan(plan) && Legal(plan, max, log) && OpenAt(plan, log, k) && Replay(log, plan[k]).open > 0
    requires LastIsStop(Replay(log, plan[k]))
    ensures st == Recover(plan, Load(plan, log), 0) && st.log == log && Agrees(plan, st)
    ensures !Refused(Eager(max), ActiveStop(st.log, |st.log|))
  {
    InFlightSettledIff(plan, max, log, k);
    NoActiveStop(plan, max, log, k, |log|);
    LoadIsLoaded(plan, log);
    var _ := RecoverLegal(plan, max, Load(plan, log), 0);
    st := Recover(plan, Load(plan, log), 0);
  }

  lemma {:induction false} EagerLoopReaches(plan: seq<nat>, max: nat, st: St, k: nat, fetch: Oracle, next: Event) returns (ready: St, end: seq<Event>)
    requires ValidPlan(plan) && Legal(plan, max, st.log) && Agrees(plan, st) && OpenAt(plan, st.log, k)
    requires Replay(st.log, plan[k]).attempts < max && Replay(st.log, plan[k]).rate < 2
    requires next == Started(plan[k], Replay(st.log, plan[k]).attempts + 1)
    ensures ready == Check(Eager(max), st.(calls := CallsSince(st.log)), CallsSince(st.log) > 0)
    ensures |st.log| <= |ready.log| && Knows(plan, ready) && end == Targets(Eager(max), plan, ready, 0, fetch).0.log
    ensures ready.log + [next] <= end
  {
    var calls := CallsSince(st.log);
    CheckWorks(Eager(max), plan, max, st.(calls := calls), calls > 0);
    ready := Check(Eager(max), st.(calls := calls), calls > 0);
    ReadyAgrees(plan, st, ready);
    assert OpenAt(plan, ready.log, k);
    end := Targets(Eager(max), plan, ready, 0, fetch).0.log;
    ReachesNext(Eager(max), plan, ready, 0, k, fetch);
  }

  // ---- a restarted run continues as the uninterrupted one -------------------------------------

  /** The log without its checkpoints. */
  function Strip(log: seq<Event>): seq<Event> {
    if log == [] then []
    else Strip(log[..|log| - 1]) + if log[|log| - 1].Checkpoint? then [] else [log[|log| - 1]]
  }

  lemma {:induction false} StripSnoc(log: seq<Event>, e: Event)
    ensures Strip(log + [e]) == Strip(log) + if e.Checkpoint? then [] else [e]
  {
    assert (log + [e])[..|log|] == log;
  }

  lemma {:induction false} LastFailureIgnoresCheckpoints(log: seq<Event>, v: nat)
    ensures LastFailure(Strip(log), v) == LastFailure(log, v)
  {
    if log != [] {
      var init, e := log[..|log| - 1], log[|log| - 1];
      LastFailureIgnoresCheckpoints(init, v);
      if e.Checkpoint? {
        assert Strip(log) == Strip(init);
      } else {
        assert Strip(log) == Strip(init) + [e];
        assert Strip(log)[..|Strip(log)| - 1] == Strip(init);
      }
    }
  }

  /** By how much one run has asked and resolved more than another. */
  datatype Ahead = Ahead(asked: nat, resolved: nat)

  /** The options of a run that goes on after `n` targets were newly resolved. */
  function Remaining(cfg: Config, n: nat): Config {
    if cfg.maxTargets.Some? then cfg.(maxTargets := Some(cfg.maxTargets.value - n)) else cfg
  }

  lemma {:induction false} JudgeIgnoresLimit(cfg: Config, n: nat, kind: Kind, retryAfter: Option<real>, streak: nat, attempt: nat)
    ensures Judge(Remaining(cfg, n), kind, retryAfter, streak, attempt) == Judge(cfg, kind, retryAfter, streak, attempt)
  {
  }

  lemma {:induction false} AttemptsIgnoreLimit(cfg: Config, n: nat, st: St, v: nat, attempt: nat, fetch: Oracle)
    requires v in st.mem
    ensures Attempts(Remaining(cfg, n), st, v, attempt, fetch) == Attempts(cfg, st, v, attempt, fetch)
    decreases cfg.maxAttempts + 1 - attempt
  {
    hide Judge;
    if attempt <= cfg.maxAttempts {
      var a := fetch(st.asked);
      if a.Raised? {
        var s2 := Fail(Start(st, v, attempt), v, attempt, a.kind);
        JudgeIgnoresLimit(cfg, n, a.kind, a.retryAfter, s2.mem[v].rate, attempt);
        AttemptsIgnoreLimit(cfg, n, Check(cfg, s2, false), v, attempt + 1, fetch);
      }
    }
  }

  lemma {:induction false} ConcludeIgnoresLimit(cfg: Config, n: nat, s: St, v: nat, x: Exit)
    requires v in s.mem
    ensures Conclude(Remaining(cfg, n), s, v, x) == Conclude(cfg, s, v, x)
  {
  }

  /** The limit on newly resolved targets plays no part within a target. */
  lemma {:induction false} TargetIgnoresLimit(cfg: Config, n: nat, st: St, v: nat, fetch: Oracle)
    requires v in st.mem
    ensures Target(Remaining(cfg, n), st, v, fetch) == Target(cfg, st, v, fetch)
  {
    hide Attempts, Conclude, LastFailure, Judge;
    AttemptsIgnoreLimit(cfg, n, st, v, st.mem[v].attempts + 1, fetch);
    AttemptsKnow(cfg, st, v, st.mem[v].attempts + 1, fetch);
    var r := Attempts(cfg, st, v, st.mem[v].attempts + 1, fetch);
    ConcludeIgnoresLimit(cfg, n, r.0, v, r.1);
  }

  /** Two runs in the same place: equal logs up to checkpoints, equal memory of everything that
      is not ended, and `a` is ahead by `d`. */
  ghost predicate Same(plan: seq<nat>, a: St, b: St, d: Ahead) {
    && Knows(plan, a) && Knows(plan, b)
    && Strip(a.log) == Strip(b.log) && a.asked == b.asked + d.asked && a.resolved == b.resolved + d.resolved
    && forall i :: 0 <= i < |plan| ==> SameMem(a.mem[plan[i]], b.mem[plan[i]])
  }

  ghost predicate SameMem(m: Mem, n: Mem) {
    (Done(m) <==> Done(n)) && (!Done(m) ==> m == n)
  }

  /** The oracle of a run that starts after `d` questions were already answered. */
  function Later(fetch: Oracle, d: nat): Oracle {
    (n: nat) => fetch(n + d)
  }

  lemma {:induction false} SameCheck(cfg: Config, plan: seq<nat>, a: St, b: St, d: Ahead, f: bool, g: bool)
    requires Same(plan, a, b, d)
    ensures Same(plan, Check(cfg, a, f), Check(cfg, b, g), d)
  {
    StripSnoc(a.log, Checkpoint);
    StripSnoc(b.log, Checkpoint);
  }

  lemma {:induction false} SameFail(plan: seq<nat>, a: St, b: St, d: Ahead, v: nat, attempt: nat, kind: Kind)
    requires Same(plan, a, b, d) && v in plan && v in a.mem && v in b.mem && a.mem[v] == b.mem[v]
    ensures Same(plan, Fail(a, v, attempt, kind), Fail(b, v, attempt, kind), d)
    ensures Fail(a, v, attempt, kind).mem[v] == Fail(b, v, attempt, kind).mem[v]
  {
    StripSnoc(a.log, Failed(v, attempt, kind));
    StripSnoc(b.log, Failed(v, attempt, kind));
  }

  lemma {:induction false} SameStart(plan: seq<nat>, a: St, b: St, d: Ahead, v: nat, attempt: nat)
    requires Same(plan, a, b, d) && v in plan && v in a.mem && v in b.mem && a.mem[v] == b.mem[v]
    ensures Same(plan, Start(a, v, attempt), Start(b, v, attempt), d)
    ensures Start(a, v, attempt).mem[v] == Start(b, v, attempt).mem[v]
  {
    StripSnoc(a.log, Started(v, attempt));
    StripSnoc(b.log, Started(v, attempt));
  }

  lemma {:induction false} SameHalt(cfg: Config, plan: seq<nat>, a: St, b: St, d: Ahead, v: nat, attempt: nat, reason: Reason, wait: bool)
    requires Same(plan, a, b, d) && v in plan && v in a.mem && v in b.mem && a.mem[v] == b.mem[v]
    ensures Same(plan, Halt(cfg, a, v, attempt, reason, wait).0, Halt(cfg, b, v, attempt, reason, wait).0, d)
  {
    var e := Stopped(v, attempt, reason, wait);
    StripSnoc(a.log, e);
    StripSnoc(b.log, e);
    StripSnoc(a.log + [e], Checkpoint);
    StripSnoc(b.log + [e], Checkpoint);
  }

  lemma {:induction false} SameResolve(plan: seq<nat>, a: St, b: St, d: Ahead, v: nat, e: Event)
    requires Same(plan, a, b, d) && v in plan && v in a.mem && v in b.mem && a.mem[v] == b.mem[v] && !e.Checkpoint?
    ensures Same(plan, Resolve(a, v, e), Resolve(b, v, e), d)
    ensures Resolve(a, v, e).mem[v] == Resolve(b, v, e).mem[v]
  {
    hide Strip, Replay;
    StripSnoc(a.log, e);
    StripSnoc(b.log, e);
  }

  ghost predicate SameResult(plan: seq<nat>, r: (St, Exit), s: (St, Exit), d: Ahead, v: nat) {
    && r.1 == s.1 && Same(plan, r.0, s.0, d) && v in r.0.mem && v in s.0.mem
    && (r.1 == OutOfAttempts || r.1 == Resolved ==> r.0.mem[v] == s.0.mem[v])
  }

  lemma {:induction false} SameAttempts(cfg: Config, plan: seq<nat>, a: St, b: St, d: Ahead, v: nat, attempt: nat, fetch: Oracle)
    returns (x: (St, Exit), y: (St, Exit))
    requires Same(plan, a, b, d) && v in plan && v in a.mem && v in b.mem && a.mem[v] == b.mem[v]
    ensures x == Attempts(cfg, a, v, attempt, fetch) && y == Attempts(cfg, b, v, attempt, Later(fetch, d.asked))
    ensures SameResult(plan, x, y, d, v)
    decreases cfg.maxAttempts + 1 - attempt
  {
    if attempt > cfg.maxAttempts {
      return (a, OutOfAttempts), (b, OutOfAttempts);
    }
    assert fetch(a.asked) == Later(fetch, d.asked)(b.asked);
    if fetch(a.asked).Raised? {
      x, y := SameFailure(cfg, plan, a, b, d, v, attempt, fetch(a.asked).kind, fetch(a.asked).retryAfter, fetch);
    } else {
      x, y := SameAnswer(cfg, plan, a, b, d, v, attempt, fetch);
    }
  }

  lemma {:induction false} SameAnswer(cfg: Config, plan: seq<nat>, a: St, b: St, d: Ahead, v: nat, attempt: nat, fetch: Oracle)
    returns (x: (St, Exit), y: (St, Exit))
    requires Same(plan, a, b, d) && v in plan && v in a.mem && v in b.mem && a.mem[v] == b.mem[v]
    requires attempt <= cfg.maxAttempts && !fetch(a.asked).Raised? && fetch(a.asked) == Later(fetch, d.asked)(b.asked)
    ensures x == Attempts(cfg, a, v, attempt, fetch) && y == Attempts(cfg, b, v, attempt, Later(fetch, d.asked))
    ensures SameResult(plan, x, y, d, v)
  {
    var s1, t1 := Start(a, v, attempt), Start(b, v, attempt);
    SameStart(plan, a, b, d, v, attempt);
    match fetch(a.asked)
    case Untrusted =>
      SameHalt(cfg, plan, s1, t1, d, v, attempt, BadResponse, false);
      x, y := Halt(cfg, s1, v, attempt, BadResponse, false), Halt(cfg, t1, v, attempt, BadResponse, false);
    case Unusable => x, y := SameResolved(cfg, plan, s1, t1, d, v, Exception(v, attempt, BadPubdate));
    case Usable => x, y := SameResolved(cfg, plan, s1, t1, d, v, Candidate(v, attempt));
    case Interrupted =>
      SameCheck(cfg, plan, s1, t1, d, true, true);
      x, y := (Check(cfg, s1, true), Halted), (Check(cfg, t1, true), Halted);
  }

  /** The target is resolved, and a checkpoint may be due. */
  lemma {:induction false} SameResolved(cfg: Config, plan: seq<nat>, a: St, b: St, d: Ahead, v: nat, e: Event) returns (x: (St, Exit), y: (St, Exit))
    requires Same(plan, a, b, d) && v in plan && v in a.mem && v in b.mem && a.mem[v] == b.mem[v] && !e.Checkpoint?
    ensures x == (Check(cfg, Resolve(a, v, e), false), Resolved) && y == (Check(cfg, Resolve(b, v, e), false), Resolved)
    ensures SameResult(plan, x, y, d, v)
  {
    SameResolve(plan, a, b, d, v, e);
    SameCheck(cfg, plan, Resolve(a, v, e), Resolve(b, v, e), d, false, false);
    x, y := (Check(cfg, Resolve(a, v, e), false), Resolved), (Check(cfg, Resolve(b, v, e), false), Resolved);
  }

  lemma {:induction false} SameVerdict(cfg: Config, plan: seq<nat>, a: St, b: St, d: Ahead, v: nat, attempt: nat, verdict: Verdict, r: (St, Exit), s: (St, Exit))
    requires Same(plan, a, b, d) && v in plan && v in a.mem && v in b.mem && a.mem[v] == b.mem[v]
    requires verdict.Again? ==> SameResult(plan, r, s, d, v)
    ensures SameResult(plan, AfterVerdict(cfg, a, v, attempt, verdict, r), AfterVerdict(cfg, b, v, attempt, verdict, s), d, v)
  {
    match verdict
    case StopRun(reason, wait) => SameHalt(cfg, plan, a, b, d, v, attempt, reason, wait);
    case GiveUp(why) => SameResolve(plan, a, b, d, v, Exception(v, attempt, why));
    case Again =>
  }

  lemma {:induction false} SameFailure(cfg: Config, plan: seq<nat>, a: St, b: St, d: Ahead, v: nat, attempt: nat, kind: Kind, retryAfter: Option<real>, fetch: Oracle)
    returns (x: (St, Exit), y: (St, Exit))
    requires Same(plan, a, b, d) && v in plan && v in a.mem && v in b.mem && a.mem[v] == b.mem[v]
    requires attempt <= cfg.maxAttempts && fetch(a.asked) == Raised(kind, retryAfter)
    ensures x == Attempts(cfg, a, v, attempt, fetch) && y == Attempts(cfg, b, v, attempt, Later(fetch, d.asked))
    ensures SameResult(plan, x, y, d, v)
    decreases cfg.maxAttempts + 1 - attempt, 0
  {
    hide Attempts, Strip, Replay;
    var s2, t2 := SameFailed(plan, a, b, d, v, attempt, kind);
    SameCheck(cfg, plan, s2, t2, d, false, false);
    var r, s := SameAttempts(cfg, plan, Check(cfg, s2, false), Check(cfg, t2, false), d, v, attempt + 1, fetch);
    assert Later(fetch, d.asked)(b.asked) == fetch(a.asked);
    x := FailureUnfolds(cfg, a, v, attempt, kind, retryAfter, fetch, s2, r);
    y := FailureUnfolds(cfg, b, v, attempt, kind, retryAfter, Later(fetch, d.asked), t2, s);
    SameVerdict(cfg, plan, s2, t2, d, v, attempt, Judge(cfg, kind, retryAfter, s2.mem[v].rate, attempt), r, s);
  }

  lemma {:induction false} SameFailed(plan: seq<nat>, a: St, b: St, d: Ahead, v: nat, attempt: nat, kind: Kind) returns (s2: St, t2: St)
    requires Same(plan, a, b, d) && v in plan && v in a.mem && v in b.mem && a.mem[v] == b.mem[v]
    ensures s2 == Fail(Start(a, v, attempt), v, attempt, kind) && t2 == Fail(Start(b, v, attempt), v, attempt, kind)
    ensures Same(plan, s2, t2, d) && v in s2.mem && v in t2.mem && s2.mem[v] == t2.mem[v]
  {
    SameStart(plan, a, b, d, v, attempt);
    SameFail(plan, Start(a, v, attempt), Start(b, v, attempt), d, v, attempt, kind);
    s2, t2 := Fail(Start(a, v, attempt), v, attempt, kind), Fail(Start(b, v, attempt), v, attempt, kind);
  }

  lemma {:induction false} SameConclude(cfg: Config, plan: seq<nat>, r: (St, Exit), s: (St, Exit), d: Ahead, v: nat) returns (c: (St, Exit), e: (St, Exit))
    requires SameResult(plan, r, s, d, v) && v in plan
    ensures c == Conclude(cfg, r.0, v, r.1) && e == Conclude(cfg, s.0, v, s.1)
    ensures c.1 == e.1 && Same(plan, c.0, e.0, d)
  {
    var m := r.0.mem[v];
    if r.1 == OutOfAttempts {
      if m.latest.Seen? && m.latest.e.Stopped? {
        SameCheck(cfg, plan, r.0, s.0, d, true, true);
        c, e := (Check(cfg, r.0, true), Halted), (Check(cfg, s.0, true), Halted);
      } else if Done(m) {
        c, e := (r.0, Resolved), (s.0, Resolved);
      } else {
        c, e := SameResolved(cfg, plan, r.0, s.0, d, v, Exception(v, m.attempts, AttemptLimit));
      }
    } else if r.1 == Resolved {
      SameCheck(cfg, plan, r.0, s.0, d, false, false);
      c, e := (Check(cfg, r.0, false), Resolved), (Check(cfg, s.0, false), Resolved);
    } else {
      c, e := r, s;
    }
  }

  lemma {:induction false} SameLastFailure(plan: seq<nat>, a: St, b: St, d: Ahead, v: nat)
    requires Same(plan, a, b, d)
    ensures LastFailure(a.log, v) == LastFailure(b.log, v)
  {
    LastFailureIgnoresCheckpoints(a.log, v);
    LastFailureIgnoresCheckpoints(b.log, v);
  }

  lemma {:induction false} SameTried(cfg: Config, plan: seq<nat>, a: St, b: St, d: Ahead, v: nat, fetch: Oracle) returns (r: (St, Exit), s: (St, Exit), c: (St, Exit), e: (St, Exit))
    requires Same(plan, a, b, d) && v in plan && v in a.mem && v in b.mem && a.mem[v] == b.mem[v]
    ensures r == Attempts(cfg, a, v, a.mem[v].attempts + 1, fetch) && v in r.0.mem && c == Conclude(cfg, r.0, v, r.1)
    ensures s == Attempts(cfg, b, v, b.mem[v].attempts + 1, Later(fetch, d.asked)) && v in s.0.mem && e == Conclude(cfg, s.0, v, s.1)
    ensures c.1 == e.1 && Same(plan, c.0, e.0, d)
  {
    hide Attempts, Strip, Replay, Conclude;
    r, s := SameAttempts(cfg, plan, a, b, d, v, a.mem[v].attempts + 1, fetch);
    c, e := SameConclude(cfg, plan, r, s, d, v);
  }

  lemma {:induction false} SameTarget(cfg: Config, plan: seq<nat>, a: St, b: St, d: Ahead, v: nat, fetch: Oracle) returns (c: (St, Exit), e: (St, Exit))
    requires Same(plan, a, b, d) && v in plan && v in a.mem && v in b.mem && a.mem[v] == b.mem[v]
    ensures c == Target(cfg, a, v, fetch) && e == Target(cfg, b, v, Later(fetch, d.asked))
    ensures c.1 == e.1 && Same(plan, c.0, e.0, d)
  {
    SameLastFailure(plan, a, b, d, v);
    assert HaltsAtOnce(cfg, a, v) <==> HaltsAtOnce(cfg, b, v);
    if HaltsAtOnce(cfg, a, v) {
      SameCheck(cfg, plan, a, b, d, true, true);
      c, e := (Check(cfg, a, true), Halted), (Check(cfg, b, true), Halted);
    } else {
      var r, s;
      r, s, c, e := SameTried(cfg, plan, a, b, d, v, fetch);
      assert c == Target(cfg, a, v, fetch) by {
        TargetTries(cfg, a, v, fetch, r, c);
      }
      assert e == Target(cfg, b, v, Later(fetch, d.asked)) by {
        TargetTries(cfg, b, v, Later(fetch, d.asked), s, e);
      }
    }
  }

  lemma {:induction false} SameTargets(cfg: Config, plan: seq<nat>, a: St, b: St, d: Ahead, i: nat, fetch: Oracle)
    requires Same(plan, a, b, d) && i <= |plan|
    ensures var r, s := Targets(cfg, plan, a, i, fetch), Targets(Remaining(cfg, d.resolved), plan, b, i, Later(fetch, d.asked));
      r.1 == s.1 && Same(plan, r.0, s.0, d)
    decreases |plan| - i
  {
    hide Target;
    if i < |plan| {
      var v := plan[i];
      assert SameMem(a.mem[v], b.mem[v]);
      if Done(a.mem[v]) {
        SameTargets(cfg, plan, a, b, d, i + 1, fetch);
      } else if !(cfg.maxTargets.Some? && a.resolved >= cfg.maxTargets.value) {
        var r, s := SameTarget(cfg, plan, a, b, d, v, fetch);
        TargetIgnoresLimit(cfg, d.resolved, b, v, Later(fetch, d.asked));
        TargetKnows(cfg, a, v, fetch);
        TargetKnows(cfg, b, v, Later(fetch, d.asked));
        if r.1 != Halted {
          SameTargets(cfg, plan, r.0, s.0, d, i + 1, fetch);
        }
      }
    }
  }

  lemma {:induction false} SkipsEnded(cfg: Config, plan: seq<nat>, st: St, i: nat, k: nat, fetch: Oracle)
    requires Knows(plan, st) && i <= k <= |plan| && forall j :: i <= j < k ==> Done(st.mem[plan[j]])
    ensures Targets(cfg, plan, st, i, fetch) == Targets(cfg, plan, st, k, fetch)
    decreases k - i
  {
    hide Target;
    if i < k {
      SkipsEnded(cfg, plan, st, i + 1, k, fetch);
    }
  }

  /** A run started on a log that its memory agrees with goes on as the loop would from there, up
      to checkpoints; `HarvestRestart.RestartContinues` is this at every turn of every run. */
  lemma {:induction false} RestartFrom(cfg: Config, plan: seq<nat>, st: St, i: nat, fetch: Oracle)
    requires ValidPlan(plan) && Agrees(plan, st) && i <= |plan| && forall j :: 0 <= j < i ==> Done(st.mem[plan[j]])
    requires cfg.maxAttempts > 0 && cfg.checkpointRequests > 0
    requires !Refused(cfg, ActiveStop(st.log, |st.log|))
    ensures Strip(RunLog(Remaining(cfg, st.resolved), plan, st.log, Later(fetch, st.asked))) == Strip(Targets(cfg, plan, st, i, fetch).0.log)
  {
    hide Targets, Recover, Replay, ActiveStop, Strip;
    var rest := Remaining(cfg, st.resolved);
    var ready := RestartIsSame(rest, plan, st);
    SkipsEnded(cfg, plan, st, 0, i, fetch);
    SameTargets(cfg, plan, st, ready, Ahead(st.asked, st.resolved), 0, fetch);
    var s := Targets(rest, plan, ready, 0, Later(fetch, st.asked)).0;
    StripSnoc(s.log, Checkpoint);
  }

  /** The state in which the restarted run enters its loop. */
  lemma {:induction false} RestartIsSame(cfg: Config, plan: seq<nat>, st: St) returns (ready: St)
    requires ValidPlan(plan) && Agrees(plan, st)
    ensures var calls := CallsSince(st.log);
      ready == Check(cfg, Load(plan, st.log).(calls := calls), calls > 0 || (st.log != [] && !cfg.hasManifest))
    ensures Recover(plan, Load(plan, st.log), 0) == Load(plan, st.log) && Same(plan, st, ready, Ahead(st.asked, st.resolved))
  {
    var loaded := Load(plan, st.log);
    LoadIsLoaded(plan, st.log);
    forall j | 0 <= j < |plan| ensures SameMem(st.mem[plan[j]], loaded.mem[plan[j]]) && loaded.mem[plan[j]].latest != InFlight {
      assert AgreesOn(st, plan[j]);
      assert loaded.mem[plan[j]] == MemOf(Replay(st.log, plan[j]));
    }
    NothingToRecover(plan, loaded, 0);
    var calls := CallsSince(st.log);
    ready := Check(cfg, loaded.(calls := calls), calls > 0 || (st.log != [] && !cfg.hasManifest));
    StripSnoc(loaded.log, Checkpoint);
  }
}
