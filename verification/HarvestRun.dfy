/** The harvest as the program runs it: dictionaries filled in place, loops that append to the
    log, counters that the checkpoint resets.  Every method is proved to append exactly what the
    functions of `Harvest` say. */
module HarvestRun {
  import opened Wrappers
  import opened Harvest

  /** The loop's dictionaries, read with their defaults. */
  function MemAt(attempts: map<nat, nat>, latest: map<nat, Latest>, rate: map<nat, nat>, v: nat): Mem {
    Mem(if v in attempts then attempts[v] else 0,
        if v in latest then latest[v] else Nothing,
        if v in rate then rate[v] else 0)
  }

  function Count(m: map<nat, nat>, v: nat): nat {
    if v in m then m[v] else 0
  }

  /** The dictionaries after the first pass of `_events_by_video` describe the fold of the log. */
  ghost predicate Folded(log: seq<Event>, attempts: map<nat, nat>, latest: map<nat, Latest>, rate: map<nat, nat>, open: map<nat, nat>) {
    forall v: nat :: var m := Replay(log, v);
      && Count(attempts, v) == m.attempts && Count(rate, v) == m.rate && Count(open, v) == m.open
      && (v in latest <==> m.last.Some?) && (v in latest ==> latest[v] == Seen(m.last.value))
  }

  /** `_events_by_video`: the memory a run starts from, for every video at once. */
  method FoldEvents(log: seq<Event>) returns (attempts: map<nat, nat>, latest: map<nat, Latest>, rate: map<nat, nat>)
    ensures forall v: nat :: MemAt(attempts, latest, rate, v) == MemOf(Replay(log, v))
  {
    attempts, latest, rate := map[], map[], map[];
    var open: map<nat, nat> := map[];
    var i := 0;
    while i < |log|
      invariant 0 <= i <= |log|
      invariant Folded(log[..i], attempts, latest, rate, open)
    {
      var e := log[i];
      assert log[..i + 1][..i] == log[..i];
      match e {
        case Started(v, _) =>
          attempts := attempts[v := Count(attempts, v) + 1];
          open := open[v := Count(open, v) + 1];
        case Failed(v, _, kind) =>
          if Count(open, v) > 0 {
            open := open[v := open[v] - 1];
          }
          latest := latest[v := Seen(e)];
          rate := rate[v := if kind == RateLimit then Count(rate, v) + 1 else 0];
        case Stopped(v, _, _, _) =>
          latest := latest[v := Seen(e)];
          open := open[v := 0];
        case Checkpoint =>
        case _ =>
          latest := latest[e.video := Seen(e)];
          open := open[e.video := 0];
          rate := rate[e.video := 0];
      }
      i := i + 1;
    }
    assert log[..|log|] == log;
    latest := MarkInFlight(log, attempts, latest, rate, open);
  }

  /** The last pass: targets whose newest start nothing answered. */
  method MarkInFlight(ghost log: seq<Event>, ghost attempts: map<nat, nat>, latest0: map<nat, Latest>, ghost rate: map<nat, nat>, open: map<nat, nat>)
    returns (latest: map<nat, Latest>)
    requires Folded(log, attempts, latest0, rate, open)
    ensures forall v: nat :: MemAt(attempts, latest, rate, v) == MemOf(Replay(log, v))
  {
    hide Replay;
    latest := latest0;
    var todo := open.Keys;
    while todo != {}
      invariant todo <= open.Keys
      invariant forall v :: v in open && v !in todo ==>
        (if v in latest then latest[v] else Nothing) == LatestOf(Replay(log, v))
      invariant forall v :: v !in open || v in todo ==>
        (v in latest <==> v in latest0) && (v in latest ==> latest[v] == latest0[v])
      decreases |todo|
    {
      var v :| v in todo;
      var final := v in latest && latest[v].Seen? && !latest[v].e.Failed?;
      if open[v] > 0 && !final {
        latest := latest[v := InFlight];
      }
      LastKinds(log, v);
      todo := todo - {v};
    }
    forall v: nat ensures MemAt(attempts, latest, rate, v) == MemOf(Replay(log, v)) {
      assert Count(open, v) == Replay(log, v).open;
    }
  }

  /** The newest answer of a target is never a start or a checkpoint. */
  lemma {:induction false} LastKinds(log: seq<Event>, v: nat)
    ensures var m := Replay(log, v); m.last.Some? ==> !m.last.value.Started? && !m.last.value.Checkpoint?
  {
    if log != [] {
      LastKinds(log[..|log| - 1], v);
    }
  }

  lemma {:induction false} NoAttemptLeft(cfg: Config, st: St, v: nat, attempt: nat, fetch: Oracle)
    requires v in st.mem && attempt > cfg.maxAttempts
    ensures Attempts(cfg, st, v, attempt, fetch) == (st, OutOfAttempts)
  {
  }

  class Run {
    const cfg: Config
    const plan: seq<nat>
    var log: seq<Event>
    var attempts: map<nat, nat>
    var latest: map<nat, Latest>
    var rate: map<nat, nat>
    var calls: nat
    var resolved: nat
    var asked: nat

    /** The object's fields are the abstract run state `st`. */
    ghost predicate Is(st: St)
      reads this
    {
      && log == st.log && calls == st.calls && resolved == st.resolved && asked == st.asked
      && forall v :: v in st.mem ==> MemAt(attempts, latest, rate, v) == st.mem[v]
    }

    constructor (cfg: Config, plan: seq<nat>, log: seq<Event>)
      ensures this.cfg == cfg && this.plan == plan && this.log == log
    {
      this.cfg, this.plan, this.log := cfg, plan, log;
      attempts, latest, rate, calls, resolved, asked := map[], map[], map[], 0, 0, 0;
    }

    method AppendEvent(e: Event)
      modifies `log
      ensures log == old(log) + [e]
    {
      log := log + [e];
    }

    method TakeCheckpoint(force: bool, ghost st: St)
      requires Is(st)
      modifies `log, `calls
      ensures Is(Check(cfg, st, force))
    {
      if force || calls >= cfg.checkpointRequests {
        AppendEvent(Checkpoint);
        calls := 0;
      }
    }

    method Stop(v: nat, attempt: nat, reason: Reason, wait: bool, ghost st: St)
      requires Is(st) && v in st.mem
      modifies this
      ensures Is(Halt(cfg, st, v, attempt, reason, wait).0)
    {
      var e := Stopped(v, attempt, reason, wait);
      AppendEvent(e);
      latest := latest[v := Seen(e)];
      TakeCheckpoint(true, st.(log := st.log + [e], mem := st.mem[v := st.mem[v].(latest := Seen(e))]));
    }

    method Settle(v: nat, e: Event, ghost st: St)
      requires Is(st) && v in st.mem
      modifies this
      ensures Is(Resolve(st, v, e))
    {
      AppendEvent(e);
      latest := latest[v := Seen(e)];
      resolved := resolved + 1;
    }

    /** The error branch of one attempt: stop the run, give the target up, or go on (None). */
    method AfterFailure(v: nat, attempt: nat, kind: Kind, retryAfter: Option<real>, ghost s: St) returns (exit: Option<Exit>)
      requires Is(s) && v in s.mem
      modifies this
      ensures match Judge(cfg, kind, retryAfter, s.mem[v].rate, attempt)
              case StopRun(reason, wait) => exit == Some(Halted) && Is(Halt(cfg, s, v, attempt, reason, wait).0)
              case GiveUp(why) => exit == Some(Resolved) && Is(Resolve(s, v, Exception(v, attempt, why)))
              case Again => exit == None && Is(Check(cfg, s, false))
    {
      if Stops(kind) {
        Stop(v, attempt, StopKind(kind), false, s);
        return Some(Halted);
      }
      if kind == RateLimit {
        var streak := Count(rate, v);
        if retryAfter.None? || retryAfter.value <= 0.0 || streak >= 2 || attempt >= cfg.maxAttempts {
          Stop(v, attempt, if streak >= 2 then PersistentRateLimit else NoSafeRetry, retryAfter.Some? && retryAfter.value > 0.0, s);
          return Some(Halted);
        }
        if retryAfter.value > cfg.maxWait {
          Stop(v, attempt, RetryDeferred, true, s);
          return Some(Halted);
        }
        TakeCheckpoint(false, s);
        return None;
      }
      if kind == Unavailable || kind == HttpClient {
        Settle(v, Exception(v, attempt, ByKind(kind)), s);
        return Some(Resolved);
      }
      if !Retryable(kind) || attempt >= cfg.maxAttempts {
        Settle(v, Exception(v, attempt, if Retryable(kind) then Exhausted else ByKind(kind)), s);
        return Some(Resolved);
      }
      if retryAfter.Some? && retryAfter.value > cfg.maxWait {
        Stop(v, attempt, RetryDeferred, true, s);
        return Some(Halted);
      }
      TakeCheckpoint(false, s);
      exit := None;
    }

    /** Send one request: the start is in the log before `fetch_one` is called. */
    method Send(v: nat, attempt: nat, fetch: Oracle, ghost s: St) returns (answer: Answer)
      requires Is(s) && v in s.mem
      modifies this
      ensures Is(Start(s, v, attempt)) && answer == fetch(s.asked)
    {
      AppendEvent(Started(v, attempt));
      attempts := attempts[v := attempt];
      calls := calls + 1;
      answer := fetch(asked);
      asked := asked + 1;
    }

    method RecordFailure(v: nat, attempt: nat, kind: Kind, ghost s: St)
      requires Is(s) && v in s.mem
      modifies this
      ensures Is(Fail(s, v, attempt, kind))
    {
      var e := Failed(v, attempt, kind);
      AppendEvent(e);
      latest := latest[v := Seen(e)];
      rate := rate[v := if kind == RateLimit then Count(rate, v) + 1 else 0];
    }

    method Accept(v: nat, e: Event, ghost s: St)
      requires Is(s) && v in s.mem
      modifies this
      ensures Is(Check(cfg, Resolve(s, v, e), false))
    {
      Settle(v, e, s);
      TakeCheckpoint(false, Resolve(s, v, e));
    }

    /** An attempt that did not raise. */
    method AfterAnswer(v: nat, attempt: nat, answer: Answer, ghost s1: St) returns (exit: Exit)
      requires Is(s1) && v in s1.mem && !answer.Raised?
      modifies this
      ensures match answer
              case Untrusted => exit == Halted && Is(Halt(cfg, s1, v, attempt, BadResponse, false).0)
              case Unusable => exit == Resolved && Is(Check(cfg, Resolve(s1, v, Exception(v, attempt, BadPubdate)), false))
              case Usable => exit == Resolved && Is(Check(cfg, Resolve(s1, v, Candidate(v, attempt)), false))
              case Interrupted => exit == Halted && Is(Check(cfg, s1, true))
              case Raised(_, _) => true
    {
      match answer {
        case Untrusted =>
          Stop(v, attempt, BadResponse, false, s1);
          exit := Halted;
        case Unusable =>
          Accept(v, Exception(v, attempt, BadPubdate), s1);
          exit := Resolved;
        case Usable =>
          Accept(v, Candidate(v, attempt), s1);
          exit := Resolved;
        case Interrupted =>
          TakeCheckpoint(true, s1);
          exit := Halted;
      }
    }

    /** One attempt; None when the loop goes on from the state `next`. */
    method TryOnce(v: nat, attempt: nat, fetch: Oracle, ghost s: St, ghost goal: (St, Exit)) returns (exit: Option<Exit>, ghost next: St)
      requires Is(s) && v in s.mem && attempt <= cfg.maxAttempts && goal == Attempts(cfg, s, v, attempt, fetch)
      modifies this
      ensures exit.Some? ==> Is(goal.0) && exit.value == goal.1
      ensures exit.None? ==> Is(next) && v in next.mem && goal == Attempts(cfg, next, v, attempt + 1, fetch)
    {
      var answer := Send(v, attempt, fetch, s);
      ghost var s1 := Start(s, v, attempt);
      next := s1;
      if answer.Raised? {
        RecordFailure(v, attempt, answer.kind, s1);
        ghost var s2 := Fail(s1, v, attempt, answer.kind);
        exit := AfterFailure(v, attempt, answer.kind, answer.retryAfter, s2);
        next := Check(cfg, s2, false);
      } else {
        var x := AfterAnswer(v, attempt, answer, s1);
        exit := Some(x);
      }
    }

    /** The `for attempt in range(...)` loop of one target. */
    method TryTarget(v: nat, fetch: Oracle, ghost st: St, ghost goal: (St, Exit)) returns (exit: Exit)
      requires Is(st) && v in st.mem && goal == Attempts(cfg, st, v, st.mem[v].attempts + 1, fetch)
      modifies this
      ensures Is(goal.0) && exit == goal.1
    {
      hide Attempts;
      var attempt := Count(attempts, v) + 1;
      ghost var s := st;
      while attempt <= cfg.maxAttempts
        invariant Is(s) && v in s.mem && goal == Attempts(cfg, s, v, attempt, fetch)
        decreases cfg.maxAttempts + 1 - attempt
      {
        var over;
        over, s := TryOnce(v, attempt, fetch, s, goal);
        if over.Some? {
          return over.value;
        }
        attempt := attempt + 1;
      }
      NoAttemptLeft(cfg, s, v, attempt, fetch);
      exit := OutOfAttempts;
    }

    method FindLastFailure(v: nat) returns (kind: Option<Kind>)
      ensures kind == LastFailure(log, v)
    {
      kind := None;
      for i := 0 to |log|
        invariant kind == LastFailure(log[..i], v)
      {
        assert log[..i + 1][..i] == log[..i];
        if log[i].Failed? && log[i].video == v {
          kind := Some(log[i].kind);
        }
      }
      assert log[..|log|] == log;
    }

    /** What follows the attempts of one target. */
    method Finish(v: nat, x: Exit, ghost s: St) returns (exit: Exit)
      requires Is(s) && v in s.mem
      modifies this
      ensures var c := Conclude(cfg, s, v, x); Is(c.0) && exit == c.1
    {
      exit := x;
      if x == OutOfAttempts {
        var state := if v in latest then latest[v] else Nothing;
        if state.Seen? && state.e.Stopped? {
          TakeCheckpoint(true, s);
          return Halted;
        }
        exit := Resolved;
        if !(state.Seen? && Terminal(state.e)) {
          var e := Exception(v, Count(attempts, v), AttemptLimit);
          Settle(v, e, s);
          TakeCheckpoint(false, Resolve(s, v, e));
        }
      } else if x == Resolved {
        TakeCheckpoint(false, s);
      }
    }

    method DoTarget(v: nat, fetch: Oracle, ghost st: St) returns (exit: Exit)
      requires Is(st) && v in st.mem
      modifies this
      ensures var r := Target(cfg, st, v, fetch); Is(r.0) && exit == r.1
    {
      var previous := FindLastFailure(v);
      if NeedsResume(previous) && !cfg.resume {
        TakeCheckpoint(true, st);
        return Halted;
      }
      if Count(rate, v) >= 2 {
        TakeCheckpoint(true, st);
        return Halted;
      }
      ghost var goal := Attempts(cfg, st, v, st.mem[v].attempts + 1, fetch);
      AttemptsKnow(cfg, st, v, st.mem[v].attempts + 1, fetch);
      exit := TryTarget(v, fetch, st, goal);
      exit := Finish(v, exit, goal.0);
    }

    /** The initial scan that turns requests left in flight into exceptions. */
    method RecoverInFlight(ghost st: St)
      requires Is(st) && Knows(plan, st)
      modifies this
      ensures Is(Recover(plan, st, 0))
    {
      hide Replay;
      ghost var s := st;
      for i := 0 to |plan|
        invariant Is(s) && Knows(plan, s) && Recover(plan, s, i) == Recover(plan, st, 0)
      {
        var v := plan[i];
        if v in latest && latest[v] == InFlight {
          var e := Exception(v, Count(attempts, v), InFlightUnknown);
          AppendEvent(e);
          latest := latest[v := Seen(e)];
          s := s.(log := s.log + [e], mem := s.mem[v := s.mem[v].(latest := Seen(e))]);
        }
      }
    }

    method FindActiveStop() returns (stop: Option<Event>)
      ensures stop == ActiveStop(log, |log|)
    {
      var i := |log|;
      while i > 0
        invariant 0 <= i <= |log| && ActiveStop(log, i) == ActiveStop(log, |log|)
      {
        i := i - 1;
        if log[i].Stopped? {
          var resumed := false;
          for j := i + 1 to |log|
            invariant resumed <==> exists k :: i + 1 <= k < j && Answers(log[k], log[i].video)
          {
            if (log[j].Started? || Terminal(log[j])) && log[j].video == log[i].video {
              resumed := true;
            }
          }
          if !resumed {
            return Some(log[i]);
          }
        }
      }
      stop := None;
    }

    method CountCalls() returns (n: nat)
      ensures n == CallsSince(log)
    {
      n := 0;
      for i := 0 to |log|
        invariant n == CallsSince(log[..i])
      {
        assert log[..i + 1][..i] == log[..i];
        n := if log[i].Checkpoint? then 0 else if log[i].Started? then n + 1 else n;
      }
      assert log[..|log|] == log;
    }

    /** The loop over the plan. */
    method DoTargets(fetch: Oracle, ghost st: St) returns (exit: Exit)
      requires Is(st) && Knows(plan, st)
      modifies this
      ensures var r := Targets(cfg, plan, st, 0, fetch); Is(r.0) && exit == r.1
    {
      ghost var s := st;
      var i := 0;
      while i < |plan|
        invariant 0 <= i <= |plan|
        invariant Is(s) && Knows(plan, s) && Targets(cfg, plan, s, i, fetch) == Targets(cfg, plan, st, 0, fetch)
      {
        var v := plan[i];
        var state := if v in latest then latest[v] else Nothing;
        if !(state.Seen? && Terminal(state.e)) {
          if cfg.maxTargets.Some? && resolved >= cfg.maxTargets.value {
            return Finished;
          }
          TargetKnows(cfg, s, v, fetch);
          exit := DoTarget(v, fetch, s);
          s := Target(cfg, s, v, fetch).0;
          if exit == Halted {
            return;
          }
        }
        i := i + 1;
      }
      exit := Finished;
    }

    /** `_run_harvest_locked`: what one complete run leaves in the log. */
    method Harvest(fetch: Oracle)
      modifies this
      ensures log == RunLog(cfg, plan, old(log), fetch)
    {
      if cfg.maxAttempts == 0 || cfg.checkpointRequests == 0 {
        return;
      }
      ghost var loaded := Load(plan, log);
      attempts, latest, rate := FoldEvents(log);
      calls, resolved, asked := 0, 0, 0;
      RecoverInFlight(loaded);
      ghost var st := Recover(plan, loaded, 0);
      var stop := FindActiveStop();
      if Refused(cfg, stop) {
        return;
      }
      calls := CountCalls();
      var force := calls > 0 || (log != [] && !cfg.hasManifest);
      TakeCheckpoint(force, st.(calls := calls));
      ghost var ready := Check(cfg, st.(calls := CallsSince(st.log)), force);
      var exit := DoTargets(fetch, ready);
      if exit == Finished {
        TakeCheckpoint(true, Targets(cfg, plan, ready, 0, fetch).0);
      }
    }
  }
}
