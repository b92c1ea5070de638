/** What every sequence of harvest runs keeps, each run cut after an arbitrary append. */
module HarvestSafety {
  import opened Wrappers
  import opened Harvest

  ghost predicate Ended(log: seq<Event>, v: nat) {
    var m := Replay(log, v); m.last.Some? && Terminal(m.last.value)
  }

  /** `plan[k]` is the first target in plan order that is not terminal. */
  ghost predicate OpenAt(plan: seq<nat>, log: seq<Event>, k: nat) {
    k < |plan| && !Ended(log, plan[k]) && forall j :: 0 <= j < k ==> Ended(log, plan[j])
  }

  /** The log discipline: which event may follow a log. */
  ghost predicate Allowed(plan: seq<nat>, max: nat, log: seq<Event>, e: Event) {
    e.Checkpoint? || exists k: nat :: OpenAt(plan, log, k) && plan[k] == e.video && Timely(max, log, e)
  }

  ghost predicate Timely(max: nat, log: seq<Event>, e: Event)
    requires !e.Checkpoint?
  {
    match e
    case Started(v, attempt) => attempt == Replay(log, v).attempts + 1 <= max && Replay(log, v).rate < 2
    case Failed(v, attempt, _) => log != [] && log[|log| - 1] == Started(v, attempt)
    case _ => true
  }

  ghost predicate Legal(plan: seq<nat>, max: nat, log: seq<Event>) {
    log == [] || (Legal(plan, max, log[..|log| - 1]) && Allowed(plan, max, log[..|log| - 1], log[|log| - 1]))
  }

  lemma {:induction false} ReplaySnoc(log: seq<Event>, e: Event, v: nat)
    ensures Replay(log + [e], v) == if About(e, v) then Note(Replay(log, v), e) else Replay(log, v)
  {
    assert (log + [e])[..|log|] == log;
  }

  lemma {:induction false} LegalSnoc(plan: seq<nat>, max: nat, log: seq<Event>, e: Event)
    ensures Legal(plan, max, log + [e]) <==> Legal(plan, max, log) && Allowed(plan, max, log, e)
  {
    assert (log + [e])[..|log|] == log;
  }

  lemma {:induction false} LegalPrefix(plan: seq<nat>, max: nat, log: seq<Event>, n: nat)
    requires Legal(plan, max, log) && n <= |log|
    ensures Legal(plan, max, log[..n])
    decreases |log|
  {
    if n < |log| {
      LegalPrefix(plan, max, log[..|log| - 1], n);
      assert log[..|log| - 1][..n] == log[..n];
    } else {
      assert log[..n] == log;
    }
  }

  /** Every event of a legal log was allowed when it was appended. */
  lemma {:induction false} AllowedAt(plan: seq<nat>, max: nat, log: seq<Event>, i: nat)
    requires Legal(plan, max, log) && i < |log|
    ensures Legal(plan, max, log[..i]) && Allowed(plan, max, log[..i], log[i])
  {
    LegalPrefix(plan, max, log, i + 1);
    assert log[..i + 1][..i] == log[..i];
  }

  /** An event about the first open target leaves every other target alone. */
  lemma {:induction false} Extend(plan: seq<nat>, max: nat, log: seq<Event>, k: nat, e: Event)
    requires ValidPlan(plan) && Legal(plan, max, log) && OpenAt(plan, log, k)
    requires e.Checkpoint? || (e.video == plan[k] && Timely(max, log, e))
    ensures Legal(plan, max, log + [e])
    ensures forall v :: !About(e, v) ==> Replay(log + [e], v) == Replay(log, v)
    ensures !e.Checkpoint? ==> Replay(log + [e], plan[k]) == Note(Replay(log, plan[k]), e)
    ensures !Terminal(e) ==> OpenAt(plan, log + [e], k)
    ensures Terminal(e) ==> Ended(log + [e], plan[k])
  {
    LegalSnoc(plan, max, log, e);
    forall v ensures Replay(log + [e], v) == if About(e, v) then Note(Replay(log, v), e) else Replay(log, v) {
      ReplaySnoc(log, e, v);
    }
  }

  lemma {:induction false} CheckpointChangesNothing(plan: seq<nat>, max: nat, log: seq<Event>)
    requires Legal(plan, max, log)
    ensures Legal(plan, max, log + [Checkpoint])
    ensures forall v :: Replay(log + [Checkpoint], v) == Replay(log, v)
  {
    LegalSnoc(plan, max, log, Checkpoint);
    forall v ensures Replay(log + [Checkpoint], v) == Replay(log, v) {
      ReplaySnoc(log, Checkpoint, v);
    }
  }

  /** Targets after the first open one have no events at all. */
  lemma {:induction false} LaterTargetsAreFresh(plan: seq<nat>, max: nat, log: seq<Event>, k: nat, j: nat)
    requires ValidPlan(plan) && Legal(plan, max, log) && OpenAt(plan, log, k) && k < j < |plan|
    ensures Replay(log, plan[j]) == Replayed(0, None, 0, 0)
    decreases |log|
  {
    if log != [] {
      var init, e := log[..|log| - 1], log[|log| - 1];
      assert log == init + [e];
      if e.Checkpoint? {
        CheckpointChangesNothing(plan, max, init);
        LaterTargetsAreFresh(plan, max, init, k, j);
      } else {
        var k0: nat :| OpenAt(plan, init, k0) && plan[k0] == e.video && Timely(max, init, e);
        Extend(plan, max, init, k0, e);
        assert k0 <= k;
        LaterTargetsAreFresh(plan, max, init, k0, j);
      }
    }
  }

  /** Every target that has an event but no end is the first open one. */
  lemma {:induction false} BusyIsFirst(plan: seq<nat>, max: nat, log: seq<Event>, i: nat)
    requires ValidPlan(plan) && Legal(plan, max, log) && i < |plan|
    requires !Ended(log, plan[i]) && Replay(log, plan[i]) != Replayed(0, None, 0, 0)
    ensures OpenAt(plan, log, i)
  {
    var k := FirstOpen(plan, log, i);
    if k < i {
      LaterTargetsAreFresh(plan, max, log, k, i);
    }
  }

  lemma {:induction false} FirstOpen(plan: seq<nat>, log: seq<Event>, i: nat) returns (k: nat)
    requires i < |plan| && !Ended(log, plan[i])
    ensures k <= i && OpenAt(plan, log, k)
  {
    k := 0;
    while Ended(log, plan[k])
      invariant k <= i && forall j :: 0 <= j < k ==> Ended(log, plan[j])
      decreases i - k
    {
      k := k + 1;
    }
  }

  // ---- one run keeps the discipline -------------------------------------------------------

  /** The loop's memory is the fold of the log. */
  ghost predicate Agrees(plan: seq<nat>, st: St) {
    forall i :: 0 <= i < |plan| ==> plan[i] in st.mem && AgreesOn(st, plan[i])
  }

  ghost predicate AgreesOn(st: St, v: nat)
    requires v in st.mem
  {
    if Ended(st.log, v) then Done(st.mem[v]) else st.mem[v] == MemOf(Replay(st.log, v)) && st.mem[v].latest != InFlight
  }

  /** The state in which target `k` is being worked on. */
  ghost predicate Working(plan: seq<nat>, max: nat, st: St, k: nat) {
    && ValidPlan(plan) && Legal(plan, max, st.log) && OpenAt(plan, st.log, k) && plan[k] in st.mem
    && st.mem[plan[k]].attempts == Replay(st.log, plan[k]).attempts
    && st.mem[plan[k]].rate == Replay(st.log, plan[k]).rate
  }

  /** Only target `k` was touched, and the log only grew. */
  ghost predicate Touched(plan: seq<nat>, st: St, s: St, k: nat)
    requires k < |plan|
  {
    && st.log <= s.log
    && s.mem.Keys == st.mem.Keys
    && (forall v :: v in st.mem && v != plan[k] ==> s.mem[v] == st.mem[v])
    && (forall v :: v != plan[k] ==> Replay(s.log, v) == Replay(st.log, v))
  }

  lemma {:induction false} CheckWorks(cfg: Config, plan: seq<nat>, max: nat, st: St, force: bool)
    requires Legal(plan, max, st.log)
    ensures var s := Check(cfg, st, force);
      && Legal(plan, max, s.log) && st.log <= s.log && s.mem == st.mem
      && (forall v :: Replay(s.log, v) == Replay(st.log, v))
  {
    CheckpointChangesNothing(plan, max, st.log);
  }

  /** An attempt is logged, sent, and its failure logged: the target stays open. */
  lemma {:induction false} FailedAttempt(plan: seq<nat>, max: nat, st: St, k: nat, attempt: nat, kind: Kind)
    requires Working(plan, max, st, k) && attempt == st.mem[plan[k]].attempts + 1 <= max && st.mem[plan[k]].rate < 2
    ensures var s := Fail(Start(st, plan[k], attempt), plan[k], attempt, kind);
      && Working(plan, max, s, k) && Touched(plan, st, s, k)
      && s.mem[plan[k]].attempts == attempt
      && Replay(s.log, plan[k]).last == Some(Failed(plan[k], attempt, kind))
      && Replay(s.log, plan[k]).open == Replay(st.log, plan[k]).open
  {
    var v := plan[k];
    Extend(plan, max, st.log, k, Started(v, attempt));
    Extend(plan, max, st.log + [Started(v, attempt)], k, Failed(v, attempt, kind));
  }

  lemma {:induction false} StartedAttempt(plan: seq<nat>, max: nat, st: St, k: nat, attempt: nat)
    requires Working(plan, max, st, k) && attempt == st.mem[plan[k]].attempts + 1 <= max && st.mem[plan[k]].rate < 2
    ensures var s := Start(st, plan[k], attempt); Working(plan, max, s, k) && Touched(plan, st, s, k)
  {
    Extend(plan, max, st.log, k, Started(plan[k], attempt));
  }

  lemma {:induction false} HaltWorks(cfg: Config, plan: seq<nat>, max: nat, st: St, k: nat, attempt: nat, reason: Reason, wait: bool)
    requires Working(plan, max, st, k)
    ensures var s := Halt(cfg, st, plan[k], attempt, reason, wait).0;
      Legal(plan, max, s.log) && Touched(plan, st, s, k)
  {
    var e := Stopped(plan[k], attempt, reason, wait);
    Extend(plan, max, st.log, k, e);
    CheckpointChangesNothing(plan, max, st.log + [e]);
  }

  lemma {:induction false} ResolveWorks(plan: seq<nat>, max: nat, st: St, k: nat, e: Event)
    requires Working(plan, max, st, k) && Terminal(e) && e.video == plan[k]
    ensures var s := Resolve(st, plan[k], e);
      && Legal(plan, max, s.log) && Touched(plan, st, s, k)
      && Ended(s.log, plan[k]) && Done(s.mem[plan[k]])
  {
    var more := st.log + [e];
    assert Legal(plan, max, more) && Ended(more, plan[k]) && (forall v :: v != plan[k] ==> Replay(more, v) == Replay(st.log, v)) by {
      Extend(plan, max, st.log, k, e);
    }
  }

  /** What an attempt's failure leads to, given what trying again would lead to. */
  function AfterVerdict(cfg: Config, st: St, v: nat, attempt: nat, verdict: Verdict, again: (St, Exit)): (St, Exit)
    requires v in st.mem
  {
    match verdict
    case StopRun(reason, wait) => Halt(cfg, st, v, attempt, reason, wait)
    case GiveUp(why) => (Resolve(st, v, Exception(v, attempt, why)), Resolved)
    case Again => again
  }

  lemma {:induction false} FailureUnfolds(cfg: Config, st: St, v: nat, attempt: nat, kind: Kind, retryAfter: Option<real>, fetch: Oracle, s2: St, again: (St, Exit))
    returns (x: (St, Exit))
    requires v in st.mem && attempt <= cfg.maxAttempts && fetch(st.asked) == Raised(kind, retryAfter)
    requires s2 == Fail(Start(st, v, attempt), v, attempt, kind) && v in s2.mem
    requires again == Attempts(cfg, Check(cfg, s2, false), v, attempt + 1, fetch)
    ensures x == Attempts(cfg, st, v, attempt, fetch)
    ensures x == AfterVerdict(cfg, s2, v, attempt, Judge(cfg, kind, retryAfter, s2.mem[v].rate, attempt), again)
  {
    x := Attempts(cfg, st, v, attempt, fetch);
  }

  ghost predicate AttemptsDone(plan: seq<nat>, max: nat, st: St, k: nat, r: (St, Exit))
    requires k < |plan| && plan[k] in st.mem
  {
    && Legal(plan, max, r.0.log) && Touched(plan, st, r.0, k) && r.1 != Finished
    && (r.1 == Resolved ==> Ended(r.0.log, plan[k]) && Done(r.0.mem[plan[k]]))
    && (r.1 == OutOfAttempts ==> r.0 == st)
  }

  /** The loop over the attempts of one target. */
  lemma {:induction false} AttemptsLegal(cfg: Config, plan: seq<nat>, st: St, k: nat, attempt: nat, fetch: Oracle)
    requires Working(plan, cfg.maxAttempts, st, k) && attempt == st.mem[plan[k]].attempts + 1 && st.mem[plan[k]].rate < 2
    ensures AttemptsDone(plan, cfg.maxAttempts, st, k, Attempts(cfg, st, plan[k], attempt, fetch))
    decreases cfg.maxAttempts + 1 - attempt, 1
  {
    var v, max := plan[k], cfg.maxAttempts;
    if attempt <= max {
      var s1 := Start(st, v, attempt);
      StartedAttempt(plan, max, st, k, attempt);
      match fetch(st.asked)
      case Raised(kind, retryAfter) =>
        FailedAttempt(plan, max, st, k, attempt, kind);
        AfterFailureLegal(cfg, plan, st, k, attempt, kind, retryAfter, fetch);
      case Untrusted => HaltWorks(cfg, plan, max, s1, k, attempt, BadResponse, false);
      case Unusable =>
        ResolveWorks(plan, max, s1, k, Exception(v, attempt, BadPubdate));
        CheckWorks(cfg, plan, max, Resolve(s1, v, Exception(v, attempt, BadPubdate)), false);
      case Usable =>
        ResolveWorks(plan, max, s1, k, Candidate(v, attempt));
        CheckWorks(cfg, plan, max, Resolve(s1, v, Candidate(v, attempt)), false);
      case Interrupted => CheckWorks(cfg, plan, max, s1, true);
    }
  }

  lemma {:induction false} AfterFailureLegal(cfg: Config, plan: seq<nat>, st: St, k: nat, attempt: nat, kind: Kind, retryAfter: Option<real>, fetch: Oracle)
    requires Working(plan, cfg.maxAttempts, st, k) && attempt == st.mem[plan[k]].attempts + 1 <= cfg.maxAttempts
    requires st.mem[plan[k]].rate < 2 && fetch(st.asked) == Raised(kind, retryAfter)
    ensures AttemptsDone(plan, cfg.maxAttempts, st, k, Attempts(cfg, st, plan[k], attempt, fetch))
    decreases cfg.maxAttempts + 1 - attempt, 0
  {
    var v, max := plan[k], cfg.maxAttempts;
    var s2 := Fail(Start(st, v, attempt), v, attempt, kind);
    FailedAttempt(plan, max, st, k, attempt, kind);
    var again := Attempts(cfg, Check(cfg, s2, false), v, attempt + 1, fetch);
    var verdict := Judge(cfg, kind, retryAfter, s2.mem[v].rate, attempt);
    assert verdict.Again? ==> AttemptsDone(plan, max, s2, k, again) && again.1 != OutOfAttempts by {
      if verdict.Again? {
        AgainLegal(cfg, plan, s2, k, attempt, fetch);
      }
    }
    VerdictLegal(cfg, plan, s2, k, attempt, verdict, again);
    var r := FailureUnfolds(cfg, st, v, attempt, kind, retryAfter, fetch, s2, again);
  }

  lemma {:induction false} AgainLegal(cfg: Config, plan: seq<nat>, s2: St, k: nat, attempt: nat, fetch: Oracle)
    requires Working(plan, cfg.maxAttempts, s2, k) && attempt == s2.mem[plan[k]].attempts < cfg.maxAttempts && s2.mem[plan[k]].rate < 2
    ensures var r := Attempts(cfg, Check(cfg, s2, false), plan[k], attempt + 1, fetch);
      AttemptsDone(plan, cfg.maxAttempts, s2, k, r) && r.1 != OutOfAttempts
    decreases cfg.maxAttempts - attempt, 2
  {
    CheckWorks(cfg, plan, cfg.maxAttempts, s2, false);
    var s3 := Check(cfg, s2, false);
    assert OpenAt(plan, s3.log, k);
    AttemptsLegal(cfg, plan, s3, k, attempt + 1, fetch);
    LoopEndsResolved(cfg, plan, s3, k, attempt + 1, fetch);
  }

  lemma {:induction false} VerdictLegal(cfg: Config, plan: seq<nat>, s2: St, k: nat, attempt: nat, verdict: Verdict, again: (St, Exit))
    requires Working(plan, cfg.maxAttempts, s2, k)
    requires verdict.Again? ==> AttemptsDone(plan, cfg.maxAttempts, s2, k, again) && again.1 != OutOfAttempts
    ensures var r := AfterVerdict(cfg, s2, plan[k], attempt, verdict, again);
      AttemptsDone(plan, cfg.maxAttempts, s2, k, r) && r.1 != OutOfAttempts
  {
    match verdict
    case StopRun(reason, wait) => HaltWorks(cfg, plan, cfg.maxAttempts, s2, k, attempt, reason, wait);
    case GiveUp(why) => ResolveWorks(plan, cfg.maxAttempts, s2, k, Exception(plan[k], attempt, why));
    case Again =>
  }

  /** The last attempt always resolves the target or stops the run, so the loop runs dry only
      when it is entered with no attempt left. */
  lemma {:induction false} LoopEndsResolved(cfg: Config, plan: seq<nat>, st: St, k: nat, attempt: nat, fetch: Oracle)
    requires k < |plan| && plan[k] in st.mem && attempt <= cfg.maxAttempts
    ensures Attempts(cfg, st, plan[k], attempt, fetch).1 != OutOfAttempts
    decreases cfg.maxAttempts + 1 - attempt
  {
    var s1 := Start(st, plan[k], attempt);
    var a := fetch(st.asked);
    if a.Raised? {
      var s2 := Fail(s1, plan[k], attempt, a.kind);
      if Judge(cfg, a.kind, a.retryAfter, s2.mem[plan[k]].rate, attempt).Again? {
        LoopEndsResolved(cfg, plan, Check(cfg, s2, false), k, attempt + 1, fetch);
      }
    }
  }

  lemma {:induction false} ConcludeLegal(cfg: Config, plan: seq<nat>, st: St, k: nat, r: (St, Exit))
    requires Working(plan, cfg.maxAttempts, st, k) && Agrees(plan, st) && AttemptsDone(plan, cfg.maxAttempts, st, k, r)
    ensures var c := Conclude(cfg, r.0, plan[k], r.1);
      && Legal(plan, cfg.maxAttempts, c.0.log) && Touched(plan, st, c.0, k)
      && (c.1 == Halted || c.1 == Resolved)
      && (c.1 == Resolved ==> Ended(c.0.log, plan[k]) && Done(c.0.mem[plan[k]]))
  {
    if r.1 == OutOfAttempts {
      assert AgreesOn(st, plan[k]);
      CheckWorks(cfg, plan, cfg.maxAttempts, st, true);
      var s := ExhaustedLegal(cfg, plan, st, k);
    } else {
      CheckWorks(cfg, plan, cfg.maxAttempts, r.0, false);
    }
  }

  /** A target that has used up its attempts is ended. */
  lemma {:induction false} ExhaustedLegal(cfg: Config, plan: seq<nat>, st: St, k: nat) returns (s: St)
    requires Working(plan, cfg.maxAttempts, st, k)
    ensures s == Check(cfg, Resolve(st, plan[k], Exception(plan[k], st.mem[plan[k]].attempts, AttemptLimit)), false)
    ensures Legal(plan, cfg.maxAttempts, s.log) && Touched(plan, st, s, k) && Ended(s.log, plan[k]) && Done(s.mem[plan[k]])
  {
    var e := Exception(plan[k], st.mem[plan[k]].attempts, AttemptLimit);
    ResolveWorks(plan, cfg.maxAttempts, st, k, e);
    s := Check(cfg, Resolve(st, plan[k], e), false);
    CheckWorks(cfg, plan, cfg.maxAttempts, Resolve(st, plan[k], e), false);
  }

  predicate HaltsAtOnce(cfg: Config, st: St, v: nat)
    requires v in st.mem
  {
    (NeedsResume(LastFailure(st.log, v)) && !cfg.resume) || st.mem[v].rate >= 2
  }

  lemma {:induction false} TargetTries(cfg: Config, st: St, v: nat, fetch: Oracle, r: (St, Exit), c: (St, Exit))
    requires v in st.mem && !HaltsAtOnce(cfg, st, v)
    requires r == Attempts(cfg, st, v, st.mem[v].attempts + 1, fetch) && v in r.0.mem && c == Conclude(cfg, r.0, v, r.1)
    ensures Target(cfg, st, v, fetch) == c
  {
    var t := Target(cfg, st, v, fetch);
    assert !(NeedsResume(LastFailure(st.log, v)) && !cfg.resume) && st.mem[v].rate < 2;
    assert t == Conclude(cfg, r.0, v, r.1);
  }

  /** One target: the run stops, or the target ends. */
  lemma {:induction false} TargetLegal(cfg: Config, plan: seq<nat>, st: St, k: nat, fetch: Oracle)
    requires Working(plan, cfg.maxAttempts, st, k) && Agrees(plan, st)
    ensures var r := Target(cfg, st, plan[k], fetch);
      && Legal(plan, cfg.maxAttempts, r.0.log) && Touched(plan, st, r.0, k)
      && (r.1 == Halted || r.1 == Resolved)
      && (r.1 == Resolved ==> Agrees(plan, r.0) && Ended(r.0.log, plan[k]))
  {
    if HaltsAtOnce(cfg, st, plan[k]) {
      CheckWorks(cfg, plan, cfg.maxAttempts, st, true);
    } else {
      var r, c := TriedLegal(cfg, plan, st, k, fetch);
      TargetTries(cfg, st, plan[k], fetch, r, c);
    }
  }

  lemma {:induction false} TriedLegal(cfg: Config, plan: seq<nat>, st: St, k: nat, fetch: Oracle) returns (r: (St, Exit), c: (St, Exit))
    requires Working(plan, cfg.maxAttempts, st, k) && Agrees(plan, st) && st.mem[plan[k]].rate < 2
    ensures r == Attempts(cfg, st, plan[k], st.mem[plan[k]].attempts + 1, fetch) && plan[k] in r.0.mem && c == Conclude(cfg, r.0, plan[k], r.1)
    ensures Legal(plan, cfg.maxAttempts, c.0.log) && Touched(plan, st, c.0, k) && (c.1 == Halted || c.1 == Resolved)
    ensures c.1 == Resolved ==> Agrees(plan, c.0) && Ended(c.0.log, plan[k])
  {
    r := Attempts(cfg, st, plan[k], st.mem[plan[k]].attempts + 1, fetch);
    AttemptsLegal(cfg, plan, st, k, st.mem[plan[k]].attempts + 1, fetch);
    c := Conclude(cfg, r.0, plan[k], r.1);
    ConcludeLegal(cfg, plan, st, k, r);
    if c.1 == Resolved {
      OthersStillAgree(plan, st, c.0, k);
    }
  }

  lemma {:induction false} OthersStillAgree(plan: seq<nat>, st: St, s: St, k: nat)
    requires k < |plan| && Agrees(plan, st) && Touched(plan, st, s, k) && plan[k] in s.mem
    requires Ended(s.log, plan[k]) && Done(s.mem[plan[k]])
    ensures Agrees(plan, s)
  {
    forall i | 0 <= i < |plan| ensures plan[i] in s.mem && AgreesOn(s, plan[i]) {
      assert AgreesOn(st, plan[i]);
    }
  }

  lemma {:induction false} AgreeingIsWorking(plan: seq<nat>, max: nat, st: St, k: nat)
    requires ValidPlan(plan) && Legal(plan, max, st.log) && Agrees(plan, st) && k < |plan|
    requires !Done(st.mem[plan[k]]) && forall j :: 0 <= j < k ==> Ended(st.log, plan[j])
    ensures Working(plan, max, st, k)
  {
    assert AgreesOn(st, plan[k]);
  }

  /** The loop over the plan keeps the discipline, and when it finishes the memory is the fold of the
      log; `HarvestRestart.HeadsAgree` has the same at the head of every turn. */
  lemma {:induction false} TargetsLegal(cfg: Config, plan: seq<nat>, st: St, i: nat, fetch: Oracle)
    requires ValidPlan(plan) && Legal(plan, cfg.maxAttempts, st.log) && Agrees(plan, st) && i <= |plan|
    requires forall j :: 0 <= j < i ==> Ended(st.log, plan[j])
    ensures var r := Targets(cfg, plan, st, i, fetch);
      && Legal(plan, cfg.maxAttempts, r.0.log) && st.log <= r.0.log
      && (r.1 == Finished ==> Agrees(plan, r.0))
    decreases |plan| - i
  {
    hide Target, Legal, Replay;
    if i < |plan| {
      assert AgreesOn(st, plan[i]);
      if Done(st.mem[plan[i]]) {
        assert Ended(st.log, plan[i]);
        TargetsLegal(cfg, plan, st, i + 1, fetch);
      } else if !(cfg.maxTargets.Some? && st.resolved >= cfg.maxTargets.value) {
        AgreeingIsWorking(plan, cfg.maxAttempts, st, i);
        TargetLegal(cfg, plan, st, i, fetch);
        var (s, x) := Target(cfg, st, plan[i], fetch);
        if x != Halted {
          TargetsLegal(cfg, plan, s, i + 1, fetch);
        }
      }
    }
  }

  /** The memory right after loading the log, before the requests in flight are settled. */
  ghost predicate Loaded(plan: seq<nat>, st: St, i: nat) {
    && Knows(plan, st)
    && (forall j :: 0 <= j < i && j < |plan| ==> AgreesOn(st, plan[j]))
    && (forall j :: i <= j < |plan| ==> st.mem[plan[j]] == MemOf(Replay(st.log, plan[j])))
  }

  lemma {:induction false} LoadIsLoaded(plan: seq<nat>, log: seq<Event>)
    requires ValidPlan(plan)
    ensures Loaded(plan, Load(plan, log), 0)
  {
    forall i | 0 <= i < |plan| ensures plan[i] in Load(plan, log).mem && Load(plan, log).mem[plan[i]] == MemOf(Replay(log, plan[i])) {
    }
  }

  /** Only the first open target can have a request in flight; settling it ends that target. */
  lemma {:induction false} SettleInFlight(plan: seq<nat>, max: nat, st: St, i: nat)
    requires ValidPlan(plan) && Legal(plan, max, st.log) && Loaded(plan, st, i) && i < |plan|
    requires st.mem[plan[i]].latest == InFlight
    ensures OpenAt(plan, st.log, i)
    ensures var e := Exception(plan[i], st.mem[plan[i]].attempts, InFlightUnknown);
      var s := st.(log := st.log + [e], mem := st.mem[plan[i] := st.mem[plan[i]].(latest := Seen(e))]);
      && Legal(plan, max, s.log) && Loaded(plan, s, i + 1)
  {
    var v := plan[i];
    BusyIsFirst(plan, max, st.log, i);
    var e := Exception(v, st.mem[v].attempts, InFlightUnknown);
    Extend(plan, max, st.log, i, e);
    var s := st.(log := st.log + [e], mem := st.mem[v := st.mem[v].(latest := Seen(e))]);
    forall j | 0 <= j < i + 1 ensures AgreesOn(s, plan[j]) {
      if j < i { assert AgreesOn(st, plan[j]); }
    }
  }

  lemma {:induction false} RecoverLegal(plan: seq<nat>, max: nat, st: St, i: nat) returns (s: St)
    requires ValidPlan(plan) && Legal(plan, max, st.log) && Loaded(plan, st, i) && i <= |plan|
    ensures s == Recover(plan, st, i) && Legal(plan, max, s.log) && st.log <= s.log && Agrees(plan, s)
    ensures s.calls == st.calls && s.resolved == st.resolved && s.asked == st.asked
    decreases |plan| - i
  {
    hide Legal, Replay;
    if i == |plan| {
      s := st;
    } else if st.mem[plan[i]].latest == InFlight {
      SettleInFlight(plan, max, st, i);
      var e := Exception(plan[i], st.mem[plan[i]].attempts, InFlightUnknown);
      s := RecoverLegal(plan, max, st.(log := st.log + [e], mem := st.mem[plan[i] := st.mem[plan[i]].(latest := Seen(e))]), i + 1);
    } else {
      assert AgreesOn(st, plan[i]);
      s := RecoverLegal(plan, max, st, i + 1);
    }
  }

  /** The state in which a run enters its loop, once it is allowed to. */
  lemma {:induction false} ReadyLegal(cfg: Config, plan: seq<nat>, st: St) returns (ready: St)
    requires ValidPlan(plan) && Legal(plan, cfg.maxAttempts, st.log) && Agrees(plan, st)
    ensures var calls := CallsSince(st.log);
      ready == Check(cfg, st.(calls := calls), calls > 0 || (st.log != [] && !cfg.hasManifest))
    ensures Legal(plan, cfg.maxAttempts, ready.log) && Agrees(plan, ready) && st.log <= ready.log
  {
    var calls := CallsSince(st.log);
    var force := calls > 0 || (st.log != [] && !cfg.hasManifest);
    CheckWorks(cfg, plan, cfg.maxAttempts, st.(calls := calls), force);
    ready := Check(cfg, st.(calls := calls), force);
    forall i | 0 <= i < |plan| ensures AgreesOn(ready, plan[i]) {
      assert AgreesOn(st, plan[i]);
    }
  }

  lemma {:induction false} RecoveredLegal(plan: seq<nat>, max: nat, log: seq<Event>) returns (st: St)
    requires ValidPlan(plan) && Legal(plan, max, log)
    ensures st == Recover(plan, Load(plan, log), 0) && Legal(plan, max, st.log) && Agrees(plan, st) && log <= st.log && st.resolved == 0
  {
    LoadIsLoaded(plan, log);
    st := RecoverLegal(plan, max, Load(plan, log), 0);
  }

  lemma {:induction false} LoopLegal(cfg: Config, plan: seq<nat>, ready: St, fetch: Oracle) returns (r: (St, Exit), end: seq<Event>)
    requires ValidPlan(plan) && Legal(plan, cfg.maxAttempts, ready.log) && Agrees(plan, ready)
    ensures r == Targets(cfg, plan, ready, 0, fetch) && end == if r.1 == Finished then Check(cfg, r.0, true).log else r.0.log
    ensures Legal(plan, cfg.maxAttempts, end) && ready.log <= end
  {
    TargetsLegal(cfg, plan, ready, 0, fetch);
    r := Targets(cfg, plan, ready, 0, fetch);
    CheckWorks(cfg, plan, cfg.maxAttempts, r.0, true);
    end := if r.1 == Finished then Check(cfg, r.0, true).log else r.0.log;
  }

  /** A run that is past its checks of the limits. */
  lemma {:induction false} ResumeLegal(cfg: Config, plan: seq<nat>, log: seq<Event>, fetch: Oracle) returns (full: seq<Event>)
    requires ValidPlan(plan) && Legal(plan, cfg.maxAttempts, log)
    ensures full == ResumeLog(cfg, plan, log, fetch) && Legal(plan, cfg.maxAttempts, full) && log <= full
  {
    hide Targets, Legal, Replay, Recover, Load, Agrees, CallsSince, ActiveStop, Refused;
    var st := RecoveredLegal(plan, cfg.maxAttempts, log);
    full := st.log;
    if !Refused(cfg, ActiveStop(st.log, |st.log|)) {
      var ready := ReadyLegal(cfg, plan, st);
      var r;
      r, full := LoopLegal(cfg, plan, ready, fetch);
    }
  }

  lemma {:induction false} RunLegal(cfg: Config, plan: seq<nat>, log: seq<Event>, fetch: Oracle)
    requires ValidPlan(plan) && Legal(plan, cfg.maxAttempts, log)
    ensures Legal(plan, cfg.maxAttempts, RunLog(cfg, plan, log, fetch)) && log <= RunLog(cfg, plan, log, fetch)
  {
    if cfg.maxAttempts != 0 && cfg.checkpointRequests != 0 {
      var full := ResumeLegal(cfg, plan, log, fetch);
      assert RunLog(cfg, plan, log, fetch) == full;
    }
  }

  // ---- sequences of runs, each cut after an arbitrary append -------------------------------

  /** One run: its options, what the outside answers, and after which append it dies. */
  datatype RunInput = RunInput(cfg: Config, fetch: Oracle, cut: nat)

  /** The run's appends, cut short; what was there before the run is never lost. */
  function CutRun(plan: seq<nat>, log: seq<Event>, run: RunInput): seq<Event> {
    var full := RunLog(run.cfg, plan, log, run.fetch);
    if run.cut < |full| then (if run.cut < |log| then log else full[..run.cut]) else full
  }

  function Runs(plan: seq<nat>, log: seq<Event>, runs: seq<RunInput>): seq<Event>
    decreases |runs|
  {
    if runs == [] then log else Runs(plan, CutRun(plan, log, runs[0]), runs[1..])
  }

  ghost predicate SameLimit(runs: seq<RunInput>, max: nat) {
    forall i :: 0 <= i < |runs| ==> runs[i].cfg.maxAttempts == max
  }

  lemma {:induction false} CutLegal(plan: seq<nat>, log: seq<Event>, run: RunInput)
    requires ValidPlan(plan) && Legal(plan, run.cfg.maxAttempts, log)
    ensures Legal(plan, run.cfg.maxAttempts, CutRun(plan, log, run)) && log <= CutRun(plan, log, run)
  {
    RunLegal(run.cfg, plan, log, run.fetch);
    var full := RunLog(run.cfg, plan, log, run.fetch);
    if |log| <= run.cut < |full| {
      LegalPrefix(plan, run.cfg.maxAttempts, full, run.cut);
    }
  }

  /** Every log that any sequence of cut runs can leave behind obeys the discipline. */
  lemma {:induction false} RunsLegal(plan: seq<nat>, max: nat, log: seq<Event>, runs: seq<RunInput>)
    requires ValidPlan(plan) && Legal(plan, max, log) && SameLimit(runs, max)
    ensures Legal(plan, max, Runs(plan, log, runs)) && log <= Runs(plan, log, runs)
    decreases |runs|
  {
    if runs != [] {
      CutLegal(plan, log, runs[0]);
      RunsLegal(plan, max, CutRun(plan, log, runs[0]), runs[1..]);
    }
  }

  lemma {:induction false} EndedStays(plan: seq<nat>, max: nat, log: seq<Event>, n: nat, v: nat)
    requires ValidPlan(plan) && Legal(plan, max, log) && n <= |log| && Ended(log[..n], v)
    ensures Ended(log, v) && forall j :: n <= j < |log| ==> !About(log[j], v)
    decreases |log|
  {
    if n == |log| {
      assert log[..n] == log;
    } else {
      var init, e := log[..|log| - 1], log[|log| - 1];
      assert log == init + [e] && init[..n] == log[..n];
      EndedStays(plan, max, init, n, v);
      if !e.Checkpoint? {
        var k: nat :| OpenAt(plan, init, k) && plan[k] == e.video && Timely(max, init, e);
      }
      assert !About(e, v);
      ReplaySnoc(init, e, v);
      forall j | n <= j < |log| ensures !About(log[j], v) {
        if j < |init| { assert log[j] == init[j]; }
      }
    }
  }

  lemma {:induction false} EndsAtTerminal(log: seq<Event>, i: nat)
    requires i < |log| && Terminal(log[i])
    ensures Ended(log[..i + 1], log[i].video)
  {
    assert log[..i + 1] == log[..i] + [log[i]];
    ReplaySnoc(log[..i], log[i], log[i].video);
  }

  /** Across any runs and cuts a target gets at most one terminal event, and nothing about it
      (no attempt, no failure, no stop) follows. */
  lemma {:induction false} NothingAfterTerminal(plan: seq<nat>, max: nat, runs: seq<RunInput>, i: nat, j: nat)
    requires ValidPlan(plan) && SameLimit(runs, max)
    ensures var log := Runs(plan, [], runs);
      i < j < |log| && Terminal(log[i]) ==> !About(log[j], log[i].video)
  {
    var log := Runs(plan, [], runs);
    if i < j < |log| && Terminal(log[i]) {
      RunsLegal(plan, max, [], runs);
      EndsAtTerminal(log, i);
      EndedStays(plan, max, log, i + 1, log[i].video);
    }
  }

  /** How many requests were started for a target. */
  function StartsOf(log: seq<Event>, v: nat): nat {
    if log == [] then 0
    else StartsOf(log[..|log| - 1], v) + if log[|log| - 1].Started? && log[|log| - 1].video == v then 1 else 0
  }

  lemma {:induction false} StartsAreAttempts(log: seq<Event>, v: nat)
    ensures Replay(log, v).attempts == StartsOf(log, v)
  {
    if log != [] {
      StartsAreAttempts(log[..|log| - 1], v);
    }
  }

  lemma {:induction false} LegalBounds(plan: seq<nat>, max: nat, log: seq<Event>, v: nat)
    requires ValidPlan(plan) && Legal(plan, max, log)
    ensures Replay(log, v).attempts <= max && Replay(log, v).rate <= 2
    ensures log != [] && log[|log| - 1].Started? && log[|log| - 1].video == v ==> Replay(log, v).rate < 2 && max > 0
    ensures Replay(log, v).rate > 0 ==> max > 0
    decreases |log|
  {
    if log != [] {
      var init, e := log[..|log| - 1], log[|log| - 1];
      assert log == init + [e];
      LegalBounds(plan, max, init, v);
      if e.Checkpoint? {
        CheckpointChangesNothing(plan, max, init);
      } else {
        var k: nat :| OpenAt(plan, init, k) && plan[k] == e.video && Timely(max, init, e);
        BoundsSnoc(max, init, e, v);
      }
    }
  }

  lemma {:induction false} BoundsSnoc(max: nat, init: seq<Event>, e: Event, v: nat)
    requires !e.Checkpoint? && Timely(max, init, e)
    requires Replay(init, v).attempts <= max && Replay(init, v).rate <= 2 && (Replay(init, v).rate > 0 ==> max > 0)
    requires init != [] && init[|init| - 1].Started? && init[|init| - 1].video == v ==> Replay(init, v).rate < 2 && max > 0
    ensures var m := Replay(init + [e], v);
      && m.attempts <= max && m.rate <= 2 && (m.rate > 0 ==> max > 0)
      && (e.Started? && e.video == v ==> m.rate < 2 && max > 0)
  {
    ReplaySnoc(init, e, v);
    match e
    case Started(_, _) =>
    case Failed(_, _, _) =>
    case _ =>
  }

  /** Attempts per target stay within the limit, and the rate-limit streak never exceeds two. */
  lemma {:induction false} AttemptsAndStreakBounded(plan: seq<nat>, max: nat, runs: seq<RunInput>, v: nat)
    requires ValidPlan(plan) && SameLimit(runs, max)
    ensures var log := Runs(plan, [], runs); StartsOf(log, v) <= max && Replay(log, v).rate <= 2
  {
    RunsLegal(plan, max, [], runs);
    LegalBounds(plan, max, Runs(plan, [], runs), v);
    StartsAreAttempts(Runs(plan, [], runs), v);
  }

  /** A request is only ever started for the first target in plan order that is not terminal,
      and it carries the number of earlier requests plus one. */
  lemma {:induction false} StartsAreForFirstOpen(plan: seq<nat>, max: nat, runs: seq<RunInput>, i: nat)
    requires ValidPlan(plan) && SameLimit(runs, max)
    ensures var log := Runs(plan, [], runs); i < |log| && log[i].Started? ==>
      && (exists k: nat :: OpenAt(plan, log[..i], k) && plan[k] == log[i].video)
      && log[i].attempt == StartsOf(log[..i], log[i].video) + 1
  {
    var log := Runs(plan, [], runs);
    if i < |log| && log[i].Started? {
      RunsLegal(plan, max, [], runs);
      AllowedAt(plan, max, log, i);
      StartsAreAttempts(log[..i], log[i].video);
    }
  }
}
