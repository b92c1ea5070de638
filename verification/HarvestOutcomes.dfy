/** What follows each request of a harvest run in the log: every class of answer and of error by its
    name. */
module HarvestOutcomes {
  import opened Wrappers
  import opened Harvest
  import opened HarvestSafety
  import opened HarvestStreak

  // ---- what may follow an event ----------------------------------------------------------------

  /** How many requests the log holds from place `base` on. */
  function StartsFrom(log: seq<Event>, base: nat): nat
    requires base <= |log|
  {
    if |log| == base then 0 else StartsFrom(log[..|log| - 1], base) + if log[|log| - 1].Started? then 1 else 0
  }

  predicate Follows(log: seq<Event>, i: nat, e: Event) {
    i + 1 < |log| && log[i + 1] == e
  }

  /** Nothing but a last event and a checkpoint comes after place `i`. */
  predicate EndsWith(log: seq<Event>, i: nat, e: Event) {
    |log| == i + 3 && log[i + 1] == e && log[i + 2] == Checkpoint
  }

  /** The next attempt is started, perhaps after a checkpoint that was due. */
  predicate TriesAgain(log: seq<Event>, i: nat, v: nat, a: nat) {
    Follows(log, i, Started(v, a + 1)) || (Follows(log, i, Checkpoint) && Follows(log, i + 1, Started(v, a + 1)))
  }

  /** What the answer to a request leads to. */
  predicate AfterStart(answer: Answer, log: seq<Event>, i: nat, v: nat, a: nat) {
    match answer
    case Usable => Follows(log, i, Candidate(v, a))
    case Unusable => Follows(log, i, Exception(v, a, BadPubdate))
    case Untrusted => EndsWith(log, i, Stopped(v, a, BadResponse, false))
    case Raised(kind, _) => Follows(log, i, Failed(v, a, kind))
    case Interrupted => |log| == i + 2 && log[i + 1] == Checkpoint
  }

  predicate Positive(t: Option<real>) {
    t.Some? && t.value > 0.0
  }

  /** What a failure leads to, by its class, the target's streak of rate limits, and the attempts. */
  predicate AfterFailed(cfg: Config, retryAfter: Option<real>, log: seq<Event>, i: nat, v: nat, a: nat, kind: Kind, streak: nat) {
    match kind
    case AuthRequired => EndsWith(log, i, Stopped(v, a, StopKind(AuthRequired), false))
    case RiskControl => EndsWith(log, i, Stopped(v, a, StopKind(RiskControl), false))
    case LocalFailure => EndsWith(log, i, Stopped(v, a, StopKind(LocalFailure), false))
    case Unavailable => Follows(log, i, Exception(v, a, ByKind(Unavailable)))
    case HttpClient => Follows(log, i, Exception(v, a, ByKind(HttpClient)))
    case Upstream => Follows(log, i, Exception(v, a, ByKind(Upstream)))
    case RateLimit =>
      if streak >= 2 then EndsWith(log, i, Stopped(v, a, PersistentRateLimit, Positive(retryAfter)))
      else if a >= cfg.maxAttempts || !Positive(retryAfter) then EndsWith(log, i, Stopped(v, a, NoSafeRetry, Positive(retryAfter)))
      else if retryAfter.value > cfg.maxWait then EndsWith(log, i, Stopped(v, a, RetryDeferred, true))
      else TriesAgain(log, i, v, a)
    case _ =>
      if a >= cfg.maxAttempts then Follows(log, i, Exception(v, a, Exhausted))
      else if retryAfter.Some? && retryAfter.value > cfg.maxWait then EndsWith(log, i, Stopped(v, a, RetryDeferred, true))
      else TriesAgain(log, i, v, a)
  }

  /** An error that must stop the run never gives a target up. */
  predicate GivesUpRightly(why: Why) {
    why != ByKind(AuthRequired) && why != ByKind(RiskControl) && why != ByKind(LocalFailure)
  }

  /** Event `i`, appended by the run that began after place `base`, is answered as it should be. */
  ghost predicate Answered(cfg: Config, fetch: Oracle, base: nat, log: seq<Event>, i: nat)
    requires base <= i < |log|
  {
    var n := StartsFrom(log[..i], base);
    match log[i]
    case Started(v, a) => AfterStart(fetch(n), log, i, v, a)
    case Failed(v, a, kind) =>
      n > 0 && fetch(n - 1).Raised? && AfterFailed(cfg, fetch(n - 1).retryAfter, log, i, v, a, kind, Replay(log[..i + 1], v).rate)
    case Exception(_, _, why) => GivesUpRightly(why)
    case _ => true
  }

  ghost predicate AllAnswered(cfg: Config, fetch: Oracle, base: nat, from: nat, log: seq<Event>)
    requires base <= from
  {
    forall i :: from <= i < |log| ==> Answered(cfg, fetch, base, log, i)
  }

  /** From place `from` on the log holds no stop, and every request in it got a real answer. */
  ghost predicate GoesOn(from: nat, log: seq<Event>) {
    forall i :: from <= i < |log| ==> GoesOnAt(log, i)
  }

  predicate GoesOnAt(log: seq<Event>, i: nat)
    requires i < |log|
  {
    !log[i].Stopped? && (log[i].Started? ==> i + 1 < |log| && !log[i + 1].Checkpoint?)
  }

  // ---- the log grows ---------------------------------------------------------------------------

  lemma {:induction false} StartsSnoc(log: seq<Event>, e: Event, base: nat)
    requires base <= |log|
    ensures StartsFrom(log + [e], base) == StartsFrom(log, base) + if e.Started? then 1 else 0
  {
    assert (log + [e])[..|log|] == log;
  }

  /** What was answered without ending the run stays answered when the log goes on. */
  lemma {:induction false} AnsweredStays(cfg: Config, fetch: Oracle, base: nat, from: nat, log: seq<Event>, more: seq<Event>, i: nat)
    requires base <= from <= i < |log| && log <= more && Answered(cfg, fetch, base, log, i) && GoesOn(from, log)
    ensures Answered(cfg, fetch, base, more, i)
  {
    assert GoesOnAt(log, i) && (i + 1 < |log| ==> GoesOnAt(log, i + 1));
    assert more[..i] == log[..i] && more[..i + 1] == log[..i + 1] && more[i] == log[i];
    assert i + 1 < |log| ==> more[i + 1] == log[i + 1];
    assert i + 2 < |log| ==> more[i + 2] == log[i + 2];
  }

  lemma {:induction false} AllStay(cfg: Config, fetch: Oracle, base: nat, from: nat, log: seq<Event>, more: seq<Event>)
    requires base <= from && AllAnswered(cfg, fetch, base, from, log) && log <= more && GoesOn(from, log)
    requires from <= |log| && AllAnswered(cfg, fetch, base, |log|, more)
    ensures AllAnswered(cfg, fetch, base, from, more)
  {
    forall i | from <= i < |more| ensures Answered(cfg, fetch, base, more, i) {
      if i < |log| {
        AnsweredStays(cfg, fetch, base, from, log, more, i);
      }
    }
  }

  lemma {:induction false} GoOnTogether(from: nat, log: seq<Event>, more: seq<Event>)
    requires from <= |log| && GoesOn(from, log) && log <= more && GoesOn(|log|, more)
    ensures GoesOn(from, more)
  {
    forall i | from <= i < |more| ensures GoesOnAt(more, i) {
      if i < |log| {
        assert GoesOnAt(log, i);
      }
    }
  }

  /** A checkpoint asks for nothing and answers nothing. */
  lemma {:induction false} CheckIsQuiet(cfg: Config, fetch: Oracle, base: nat, st: St, force: bool)
    requires base <= |st.log| && st.asked == StartsFrom(st.log, base)
    ensures var s := Check(cfg, st, force);
      && st.log <= s.log && s.asked == StartsFrom(s.log, base)
      && AllAnswered(cfg, fetch, base, |st.log|, s.log) && GoesOn(|st.log|, s.log)
  {
    StartsSnoc(st.log, Checkpoint, base);
  }

  // ---- one attempt -----------------------------------------------------------------------------

  /** What a target's attempts leave, seen from the log they found. */
  ghost predicate Outcome(cfg: Config, fetch: Oracle, base: nat, before: seq<Event>, r: (St, Exit))
    requires base <= |before|
  {
    && before <= r.0.log && r.0.asked == StartsFrom(r.0.log, base)
    && AllAnswered(cfg, fetch, base, |before|, r.0.log)
    && (r.1 != Halted ==> GoesOn(|before|, r.0.log))
  }

  /** One request and the event that answers it for good. */
  lemma {:induction false} OneAnswer(cfg: Config, fetch: Oracle, base: nat, st: St, v: nat, a: nat, e: Event, force: bool)
    requires v in st.mem && base <= |st.log| && st.asked == StartsFrom(st.log, base)
    requires (fetch(st.asked).Usable? && e == Candidate(v, a)) || (fetch(st.asked).Unusable? && e == Exception(v, a, BadPubdate))
    ensures Outcome(cfg, fetch, base, st.log, (Check(cfg, Resolve(Start(st, v, a), v, e), force), Resolved))
  {
    hide AllAnswered, GoesOn, StartsFrom;
    var end := Check(cfg, Resolve(Start(st, v, a), v, e), force);
    var two := st.log + [Started(v, a)] + [e];
    assert end.log == two || end.log == two + [Checkpoint];
    PairCounts(st.log, v, a, e, base);
    PairAnswers(cfg, fetch, base, st.log, v, a, e, end.log);
  }

  lemma {:induction false} PairCounts(log: seq<Event>, v: nat, a: nat, e: Event, base: nat)
    requires base <= |log| && !e.Started?
    ensures var two := log + [Started(v, a)] + [e];
      StartsFrom(two, base) == StartsFrom(log, base) + 1 && StartsFrom(two + [Checkpoint], base) == StartsFrom(log, base) + 1
  {
    hide StartsFrom;
    StartsSnoc(log, Started(v, a), base);
    StartsSnoc(log + [Started(v, a)], e, base);
    StartsSnoc(log + [Started(v, a)] + [e], Checkpoint, base);
  }

  lemma {:induction false} PairAnswers(cfg: Config, fetch: Oracle, base: nat, log: seq<Event>, v: nat, a: nat, e: Event, end: seq<Event>)
    requires base <= |log| && var two := log + [Started(v, a)] + [e]; end == two || end == two + [Checkpoint]
    requires var n := StartsFrom(log, base);
      (fetch(n).Usable? && e == Candidate(v, a)) || (fetch(n).Unusable? && e == Exception(v, a, BadPubdate))
    ensures AllAnswered(cfg, fetch, base, |log|, end) && GoesOn(|log|, end)
  {
    hide AfterFailed, StartsFrom, Replay;
    assert end[..|log|] == log;
  }

  lemma {:induction false} UntrustedStops(cfg: Config, fetch: Oracle, base: nat, st: St, v: nat, a: nat)
    requires v in st.mem && base <= |st.log| && st.asked == StartsFrom(st.log, base) && fetch(st.asked).Untrusted?
    ensures Outcome(cfg, fetch, base, st.log, Halt(cfg, Start(st, v, a), v, a, BadResponse, false))
  {
    hide AfterFailed, Replay;
    var e := Stopped(v, a, BadResponse, false);
    var log := Halt(cfg, Start(st, v, a), v, a, BadResponse, false).0.log;
    assert log == st.log + [Started(v, a)] + [e] + [Checkpoint];
    StartsSnoc(st.log, Started(v, a), base);
    StartsSnoc(st.log + [Started(v, a)], e, base);
    StartsSnoc(st.log + [Started(v, a)] + [e], Checkpoint, base);
    assert log[..|st.log|] == st.log;
  }

  lemma {:induction false} InterruptEnds(cfg: Config, fetch: Oracle, base: nat, st: St, v: nat, a: nat)
    requires v in st.mem && base <= |st.log| && st.asked == StartsFrom(st.log, base) && fetch(st.asked).Interrupted?
    ensures Outcome(cfg, fetch, base, st.log, (Check(cfg, Start(st, v, a), true), Halted))
  {
    var log := Check(cfg, Start(st, v, a), true).log;
    assert log == st.log + [Started(v, a)] + [Checkpoint];
    StartsSnoc(st.log, Started(v, a), base);
    StartsSnoc(st.log + [Started(v, a)], Checkpoint, base);
    assert log[..|st.log|] == st.log;
  }

  /** A failed attempt followed by what its class, the streak and the attempts call for. */
  lemma {:induction false} FailureIs(cfg: Config, fetch: Oracle, base: nat, st: St, v: nat, a: nat, kind: Kind, retryAfter: Option<real>, log: seq<Event>)
    requires v in st.mem && base <= |st.log| && st.asked == StartsFrom(st.log, base) && fetch(st.asked) == Raised(kind, retryAfter)
    requires Fail(Start(st, v, a), v, a, kind).log <= log
    requires AfterFailed(cfg, retryAfter, log, |st.log| + 1, v, a, kind, Replay(Fail(Start(st, v, a), v, a, kind).log, v).rate)
    requires AllAnswered(cfg, fetch, base, |st.log| + 2, log)
    ensures AllAnswered(cfg, fetch, base, |st.log|, log)
  {
    hide Answered, AfterFailed, Replay, StartsFrom;
    FailedPair(cfg, fetch, base, st.log, v, a, kind, retryAfter, log);
    forall i | |st.log| <= i < |log| ensures Answered(cfg, fetch, base, log, i) {
      assert i == |st.log| || i == |st.log| + 1 || |st.log| + 2 <= i;
    }
  }

  /** The request and its failure. */
  lemma {:induction false} FailedPair(cfg: Config, fetch: Oracle, base: nat, before: seq<Event>, v: nat, a: nat, kind: Kind, retryAfter: Option<real>, log: seq<Event>)
    requires base <= |before| && fetch(StartsFrom(before, base)) == Raised(kind, retryAfter)
    requires var two := before + [Started(v, a)] + [Failed(v, a, kind)];
      two <= log && AfterFailed(cfg, retryAfter, log, |before| + 1, v, a, kind, Replay(two, v).rate)
    ensures Answered(cfg, fetch, base, log, |before|) && Answered(cfg, fetch, base, log, |before| + 1)
  {
    hide AfterFailed, Replay, StartsFrom;
    var one := before + [Started(v, a)];
    var two := one + [Failed(v, a, kind)];
    StartsSnoc(before, Started(v, a), base);
    assert log[..|before|] == before && log[..|before| + 1] == one && log[..|before| + 2] == two;
    assert log[|before|] == two[|before|] && log[|before| + 1] == two[|before| + 1];
  }

  /** The stops. */
  lemma {:induction false} FailureStops(cfg: Config, fetch: Oracle, base: nat, st: St, v: nat, a: nat, kind: Kind, retryAfter: Option<real>, reason: Reason, wait: bool)
    requires v in st.mem && base <= |st.log| && st.asked == StartsFrom(st.log, base) && fetch(st.asked) == Raised(kind, retryAfter)
    requires var s2 := Fail(Start(st, v, a), v, a, kind);
      && s2.mem[v].rate == Replay(s2.log, v).rate
      && Judge(cfg, kind, retryAfter, s2.mem[v].rate, a) == StopRun(reason, wait)
    ensures Outcome(cfg, fetch, base, st.log, Halt(cfg, Fail(Start(st, v, a), v, a, kind), v, a, reason, wait))
  {
    hide Judge, AfterFailed, AfterStart, Replay, StartsFrom;
    var s2, e := Fail(Start(st, v, a), v, a, kind), Stopped(v, a, reason, wait);
    var log := Halt(cfg, s2, v, a, reason, wait).0.log;
    assert log == s2.log + [e] + [Checkpoint];
    CountTwo(st.log, v, a, kind, base);
    StartsSnoc(s2.log, e, base);
    StartsSnoc(s2.log + [e], Checkpoint, base);
    StopIsRight(cfg, kind, retryAfter, s2.mem[v].rate, log, |st.log| + 1, v, a, reason, wait);
    FailureIs(cfg, fetch, base, st, v, a, kind, retryAfter, log);
  }

  lemma {:induction false} StopIsRight(cfg: Config, kind: Kind, retryAfter: Option<real>, streak: nat, log: seq<Event>, i: nat, v: nat, a: nat,
                                       reason: Reason, wait: bool)
    requires Judge(cfg, kind, retryAfter, streak, a) == StopRun(reason, wait) && EndsWith(log, i, Stopped(v, a, reason, wait))
    ensures AfterFailed(cfg, retryAfter, log, i, v, a, kind, streak)
  {
  }

  lemma {:induction false} CountTwo(log: seq<Event>, v: nat, a: nat, kind: Kind, base: nat)
    requires base <= |log|
    ensures StartsFrom(log + [Started(v, a)] + [Failed(v, a, kind)], base) == StartsFrom(log, base) + 1
  {
    StartsSnoc(log, Started(v, a), base);
    StartsSnoc(log + [Started(v, a)], Failed(v, a, kind), base);
  }

  lemma {:induction false} FailureGivesUp(cfg: Config, fetch: Oracle, base: nat, st: St, v: nat, a: nat, kind: Kind, retryAfter: Option<real>, why: Why)
    requires v in st.mem && base <= |st.log| && st.asked == StartsFrom(st.log, base) && fetch(st.asked) == Raised(kind, retryAfter)
    requires var s2 := Fail(Start(st, v, a), v, a, kind);
      && s2.mem[v].rate == Replay(s2.log, v).rate
      && Judge(cfg, kind, retryAfter, s2.mem[v].rate, a) == GiveUp(why)
    ensures Outcome(cfg, fetch, base, st.log, (Resolve(Fail(Start(st, v, a), v, a, kind), v, Exception(v, a, why)), Resolved))
  {
    hide Judge, AfterFailed, AfterStart, Replay, StartsFrom;
    var s2, e := Fail(Start(st, v, a), v, a, kind), Exception(v, a, why);
    var log := s2.log + [e];
    assert Resolve(s2, v, e).log == log;
    CountTwo(st.log, v, a, kind, base);
    StartsSnoc(s2.log, e, base);
    GiveUpIsRight(cfg, kind, retryAfter, s2.mem[v].rate, log, |st.log| + 1, v, a, why);
    FailureIs(cfg, fetch, base, st, v, a, kind, retryAfter, log);
  }

  lemma {:induction false} GiveUpIsRight(cfg: Config, kind: Kind, retryAfter: Option<real>, streak: nat, log: seq<Event>, i: nat, v: nat, a: nat, why: Why)
    requires Judge(cfg, kind, retryAfter, streak, a) == GiveUp(why) && Follows(log, i, Exception(v, a, why))
    ensures AfterFailed(cfg, retryAfter, log, i, v, a, kind, streak) && GivesUpRightly(why)
  {
  }

  /** Another try: the attempts that follow begin with its start. */
  lemma {:induction false} FailureTriesAgain(cfg: Config, fetch: Oracle, base: nat, st: St, v: nat, a: nat, kind: Kind, retryAfter: Option<real>, r: (St, Exit))
    requires v in st.mem && base <= |st.log| && st.asked == StartsFrom(st.log, base) && fetch(st.asked) == Raised(kind, retryAfter)
    requires var s2 := Fail(Start(st, v, a), v, a, kind);
      && s2.mem[v].rate == Replay(s2.log, v).rate
      && Judge(cfg, kind, retryAfter, s2.mem[v].rate, a) == Again
      && Check(cfg, s2, false).log + [Started(v, a + 1)] <= r.0.log
      && Outcome(cfg, fetch, base, Check(cfg, s2, false).log, r)
    ensures Outcome(cfg, fetch, base, st.log, r)
  {
    hide Judge, AfterFailed, AfterStart, Replay, StartsFrom;
    var s2 := Fail(Start(st, v, a), v, a, kind);
    var s3, log := Check(cfg, s2, false), r.0.log;
    assert log[|s3.log|] == Started(v, a + 1);
    assert TriesAgain(log, |st.log| + 1, v, a);
    AgainIsRight(cfg, kind, retryAfter, s2.mem[v].rate, log, |st.log| + 1, v, a);
    forall i | |st.log| + 2 <= i < |log| ensures Answered(cfg, fetch, base, log, i) {
      if i < |s3.log| {
        assert log[i] == Checkpoint;
      }
    }
    FailureIs(cfg, fetch, base, st, v, a, kind, retryAfter, log);
    if r.1 != Halted {
      AgainGoesOn(st.log, s2.log, s3.log, log, v, a, kind);
    }
  }

  lemma {:induction false} AgainIsRight(cfg: Config, kind: Kind, retryAfter: Option<real>, streak: nat, log: seq<Event>, i: nat, v: nat, a: nat)
    requires Judge(cfg, kind, retryAfter, streak, a) == Again && TriesAgain(log, i, v, a)
    ensures AfterFailed(cfg, retryAfter, log, i, v, a, kind, streak)
  {
  }

  lemma {:induction false} AgainGoesOn(log: seq<Event>, two: seq<Event>, three: seq<Event>, more: seq<Event>, v: nat, a: nat, kind: Kind)
    requires two == log + [Started(v, a)] + [Failed(v, a, kind)] && (three == two || three == two + [Checkpoint])
    requires three <= more && GoesOn(|three|, more)
    ensures GoesOn(|log|, more)
  {
    assert GoesOn(|log|, three);
    GoOnTogether(|log|, three, more);
  }

  // ---- a target, the loop, a run ---------------------------------------------------------------

  lemma {:induction false} AttemptsAnswered(cfg: Config, plan: seq<nat>, st: St, k: nat, attempt: nat, fetch: Oracle, base: nat)
    requires Working(plan, cfg.maxAttempts, st, k) && attempt == st.mem[plan[k]].attempts + 1 && st.mem[plan[k]].rate < 2
    requires base <= |st.log| && st.asked == StartsFrom(st.log, base)
    ensures Outcome(cfg, fetch, base, st.log, Attempts(cfg, st, plan[k], attempt, fetch))
    decreases cfg.maxAttempts + 1 - attempt, 1
  {
    hide Outcome, Replay, Legal, Judge;
    var v := plan[k];
    if attempt > cfg.maxAttempts {
      NoAttempt(cfg, fetch, base, st);
    } else {
      match fetch(st.asked)
      case Raised(kind, retryAfter) => FailedAnswered(cfg, plan, st, k, attempt, kind, retryAfter, fetch, base);
      case Untrusted => UntrustedStops(cfg, fetch, base, st, v, attempt);
      case Unusable => OneAnswer(cfg, fetch, base, st, v, attempt, Exception(v, attempt, BadPubdate), false);
      case Usable => OneAnswer(cfg, fetch, base, st, v, attempt, Candidate(v, attempt), false);
      case Interrupted => InterruptEnds(cfg, fetch, base, st, v, attempt);
    }
  }

  lemma {:induction false} NoAttempt(cfg: Config, fetch: Oracle, base: nat, st: St)
    requires base <= |st.log| && st.asked == StartsFrom(st.log, base)
    ensures Outcome(cfg, fetch, base, st.log, (st, OutOfAttempts))
  {
  }

  lemma {:induction false} FailedAnswered(cfg: Config, plan: seq<nat>, st: St, k: nat, attempt: nat, kind: Kind, retryAfter: Option<real>, fetch: Oracle, base: nat)
    requires Working(plan, cfg.maxAttempts, st, k) && attempt == st.mem[plan[k]].attempts + 1 <= cfg.maxAttempts && st.mem[plan[k]].rate < 2
    requires base <= |st.log| && st.asked == StartsFrom(st.log, base) && fetch(st.asked) == Raised(kind, retryAfter)
    ensures Outcome(cfg, fetch, base, st.log, Attempts(cfg, st, plan[k], attempt, fetch))
    decreases cfg.maxAttempts + 1 - attempt, 0
  {
    hide Outcome, Replay, Legal, Attempts, Judge;
    var v, max := plan[k], cfg.maxAttempts;
    var s2 := Fail(Start(st, v, attempt), v, attempt, kind);
    FailedAttempt(plan, max, st, k, attempt, kind);
    var verdict := Judge(cfg, kind, retryAfter, s2.mem[v].rate, attempt);
    var again := Attempts(cfg, Check(cfg, s2, false), v, attempt + 1, fetch);
    var r := FailureUnfolds(cfg, st, v, attempt, kind, retryAfter, fetch, s2, again);
    match verdict
    case StopRun(reason, wait) => FailureStops(cfg, fetch, base, st, v, attempt, kind, retryAfter, reason, wait);
    case GiveUp(why) => FailureGivesUp(cfg, fetch, base, st, v, attempt, kind, retryAfter, why);
    case Again =>
      AgainHasRoom(cfg, kind, retryAfter, s2.mem[v].rate, attempt);
      AgainAnswered(cfg, plan, s2, k, attempt, fetch, base, st, kind);
      FailureTriesAgain(cfg, fetch, base, st, v, attempt, kind, retryAfter, again);
  }

  lemma {:induction false} AgainHasRoom(cfg: Config, kind: Kind, retryAfter: Option<real>, streak: nat, attempt: nat)
    requires Judge(cfg, kind, retryAfter, streak, attempt) == Again && streak <= 2 && (kind != RateLimit ==> streak == 0)
    ensures attempt < cfg.maxAttempts && streak < 2
  {
  }

  lemma {:induction false} AgainAnswered(cfg: Config, plan: seq<nat>, s2: St, k: nat, attempt: nat, fetch: Oracle, base: nat, st: St, kind: Kind)
    requires Working(plan, cfg.maxAttempts, s2, k) && attempt == s2.mem[plan[k]].attempts < cfg.maxAttempts && s2.mem[plan[k]].rate < 2
    requires plan[k] in st.mem && base <= |st.log| && st.asked == StartsFrom(st.log, base) && s2 == Fail(Start(st, plan[k], attempt), plan[k], attempt, kind)
    ensures var s3 := Check(cfg, s2, false); var r := Attempts(cfg, s3, plan[k], attempt + 1, fetch);
      && base <= |s3.log| && s3.log + [Started(plan[k], attempt + 1)] <= r.0.log
      && Outcome(cfg, fetch, base, s3.log, r)
    decreases cfg.maxAttempts - attempt, 2
  {
    hide Outcome, Replay, Legal, Attempts;
    CheckWorks(cfg, plan, cfg.maxAttempts, s2, false);
    CountTwo(st.log, plan[k], attempt, kind, base);
    CheckIsQuiet(cfg, fetch, base, s2, false);
    var s3 := Check(cfg, s2, false);
    FirstAppendIsStart(cfg, s3, plan[k], attempt + 1, fetch);
    AttemptsAnswered(cfg, plan, s3, k, attempt + 1, fetch, base);
  }

  /** What follows the attempts of a target. */
  lemma {:induction false} ConcludeAnswered(cfg: Config, fetch: Oracle, base: nat, before: seq<Event>, r: (St, Exit), v: nat)
    requires base <= |before| && Outcome(cfg, fetch, base, before, r) && v in r.0.mem
    requires r.1 == OutOfAttempts ==> r.0.log == before
    ensures Outcome(cfg, fetch, base, before, Conclude(cfg, r.0, v, r.1))
  {
    hide AfterStart, AfterFailed;
    if r.1 == OutOfAttempts && !(r.0.mem[v].latest.Seen? && r.0.mem[v].latest.e.Stopped?) && !Done(r.0.mem[v]) {
      LimitAnswered(cfg, fetch, base, r.0, v);
    } else if r.1 == OutOfAttempts || r.1 == Resolved {
      CheckIsQuiet(cfg, fetch, base, r.0, true);
      CheckIsQuiet(cfg, fetch, base, r.0, false);
      AllStay(cfg, fetch, base, |before|, r.0.log, Check(cfg, r.0, true).log);
      AllStay(cfg, fetch, base, |before|, r.0.log, Check(cfg, r.0, false).log);
      GoOnTogether(|before|, r.0.log, Check(cfg, r.0, false).log);
    }
  }

  lemma {:induction false} LimitAnswered(cfg: Config, fetch: Oracle, base: nat, st: St, v: nat)
    requires v in st.mem && base <= |st.log| && st.asked == StartsFrom(st.log, base)
    ensures Outcome(cfg, fetch, base, st.log, (Check(cfg, Resolve(st, v, Exception(v, st.mem[v].attempts, AttemptLimit)), false), Resolved))
  {
    var e := Exception(v, st.mem[v].attempts, AttemptLimit);
    StartsSnoc(st.log, e, base);
    StartsSnoc(st.log + [e], Checkpoint, base);
  }

  lemma {:induction false} TargetAnswered(cfg: Config, plan: seq<nat>, st: St, k: nat, fetch: Oracle, base: nat)
    requires Working(plan, cfg.maxAttempts, st, k) && base <= |st.log| && st.asked == StartsFrom(st.log, base)
    ensures Outcome(cfg, fetch, base, st.log, Target(cfg, st, plan[k], fetch))
  {
    hide Replay, Legal, Attempts, Conclude, AllAnswered, GoesOn;
    if HaltsAtOnce(cfg, st, plan[k]) {
      CheckIsQuiet(cfg, fetch, base, st, true);
    } else {
      var r := Attempts(cfg, st, plan[k], st.mem[plan[k]].attempts + 1, fetch);
      AttemptsAnswered(cfg, plan, st, k, st.mem[plan[k]].attempts + 1, fetch, base);
      AttemptsLegal(cfg, plan, st, k, st.mem[plan[k]].attempts + 1, fetch);
      ConcludeAnswered(cfg, fetch, base, st.log, r, plan[k]);
      TargetTries(cfg, st, plan[k], fetch, r, Conclude(cfg, r.0, plan[k], r.1));
    }
  }

  /** The loop over the plan. */
  lemma {:induction false} TargetsAnswered(cfg: Config, plan: seq<nat>, st: St, i: nat, fetch: Oracle, base: nat)
    requires ValidPlan(plan) && Legal(plan, cfg.maxAttempts, st.log) && Agrees(plan, st) && i <= |plan|
    requires forall j :: 0 <= j < i ==> Ended(st.log, plan[j])
    requires base <= |st.log| && st.asked == StartsFrom(st.log, base)
    ensures Outcome(cfg, fetch, base, st.log, Targets(cfg, plan, st, i, fetch))
    decreases |plan| - i
  {
    hide Target, Legal, Replay, Outcome;
    if i == |plan| {
      NothingAsked(cfg, fetch, base, st);
    } else {
      assert AgreesOn(st, plan[i]);
      if Done(st.mem[plan[i]]) {
        TargetsAnswered(cfg, plan, st, i + 1, fetch, base);
      } else if cfg.maxTargets.Some? && st.resolved >= cfg.maxTargets.value {
        NothingAsked(cfg, fetch, base, st);
      } else {
        AgreeingIsWorking(plan, cfg.maxAttempts, st, i);
        TargetAnswered(cfg, plan, st, i, fetch, base);
        var t := TargetEnds(cfg, plan, st, i, fetch);
        if t.1 != Halted {
          OutcomeGrows(cfg, fetch, base, st.log, t);
          TargetsAnswered(cfg, plan, t.0, i + 1, fetch, base);
          OutcomesCompose(cfg, fetch, base, st.log, t, Targets(cfg, plan, t.0, i + 1, fetch));
        } else {
          OutcomeHalts(cfg, fetch, base, st.log, t);
        }
      }
    }
  }

  lemma {:induction false} NothingAsked(cfg: Config, fetch: Oracle, base: nat, st: St)
    requires base <= |st.log| && st.asked == StartsFrom(st.log, base)
    ensures Outcome(cfg, fetch, base, st.log, (st, Finished))
  {
  }

  lemma {:induction false} OutcomeGrows(cfg: Config, fetch: Oracle, base: nat, before: seq<Event>, t: (St, Exit))
    requires base <= |before| && Outcome(cfg, fetch, base, before, t)
    ensures base <= |t.0.log| && t.0.asked == StartsFrom(t.0.log, base)
  {
  }

  lemma {:induction false} OutcomeHalts(cfg: Config, fetch: Oracle, base: nat, before: seq<Event>, t: (St, Exit))
    requires base <= |before| && Outcome(cfg, fetch, base, before, t) && t.1 == Halted
    ensures Outcome(cfg, fetch, base, before, (t.0, Halted))
  {
  }

  lemma {:induction false} OutcomesCompose(cfg: Config, fetch: Oracle, base: nat, before: seq<Event>, t: (St, Exit), r: (St, Exit))
    requires base <= |before| && Outcome(cfg, fetch, base, before, t) && t.1 != Halted
    requires base <= |t.0.log| && Outcome(cfg, fetch, base, t.0.log, r)
    ensures Outcome(cfg, fetch, base, before, r)
  {
    AllStay(cfg, fetch, base, |before|, t.0.log, r.0.log);
    if r.1 != Halted {
      GoOnTogether(|before|, t.0.log, r.0.log);
    }
  }

  /** What the recovery appends are exceptions of requests left in flight. */
  ghost predicate OnlyRecoveries(base: seq<Event>, log: seq<Event>) {
    base <= log && forall i :: |base| <= i < |log| ==> log[i].Exception? && log[i].why == InFlightUnknown
  }

  lemma {:induction false} RecoverAppends(plan: seq<nat>, st: St, i: nat, base: seq<Event>)
    requires Knows(plan, st) && i <= |plan| && OnlyRecoveries(base, st.log)
    ensures OnlyRecoveries(base, Recover(plan, st, i).log) && Recover(plan, st, i).asked == st.asked
    decreases |plan| - i
  {
    if i < |plan| {
      var v := plan[i];
      if st.mem[v].latest == InFlight {
        var e := Exception(v, st.mem[v].attempts, InFlightUnknown);
        RecoverAppends(plan, st.(log := st.log + [e], mem := st.mem[v := st.mem[v].(latest := Seen(e))]), i + 1, base);
      } else {
        RecoverAppends(plan, st, i + 1, base);
      }
    }
  }

  lemma {:induction false} RecoveriesAreQuiet(cfg: Config, fetch: Oracle, base: seq<Event>, log: seq<Event>)
    requires OnlyRecoveries(base, log)
    ensures AllAnswered(cfg, fetch, |base|, |base|, log) && GoesOn(|base|, log) && StartsFrom(log, |base|) == 0
    decreases |log|
  {
    hide AfterStart, AfterFailed;
    if |log| > |base| {
      var init := log[..|log| - 1];
      assert log == init + [log[|log| - 1]];
      RecoveriesAreQuiet(cfg, fetch, base, init);
    }
  }

  /** In a run that is not cut, every event it appends is answered as it should be. */
  lemma {:induction false} RunAnswers(cfg: Config, plan: seq<nat>, log: seq<Event>, fetch: Oracle)
    requires ValidPlan(plan) && Legal(plan, cfg.maxAttempts, log)
    ensures log <= RunLog(cfg, plan, log, fetch) && AllAnswered(cfg, fetch, |log|, |log|, RunLog(cfg, plan, log, fetch))
  {
    hide AllAnswered, ResumeLog, Legal;
    if cfg.maxAttempts == 0 || cfg.checkpointRequests == 0 {
      NothingNew(cfg, fetch, log);
    } else {
      ResumeAnswers(cfg, plan, log, fetch);
    }
  }

  lemma {:induction false} NothingNew(cfg: Config, fetch: Oracle, log: seq<Event>)
    ensures AllAnswered(cfg, fetch, |log|, |log|, log)
  {
  }

  lemma {:induction false} ResumeAnswers(cfg: Config, plan: seq<nat>, log: seq<Event>, fetch: Oracle)
    requires ValidPlan(plan) && Legal(plan, cfg.maxAttempts, log)
    ensures log <= ResumeLog(cfg, plan, log, fetch) && AllAnswered(cfg, fetch, |log|, |log|, ResumeLog(cfg, plan, log, fetch))
  {
    hide AllAnswered, GoesOn, OnlyRecoveries, Targets, Legal, Replay, Recover, Load, Agrees, ActiveStop, CallsSince, Refused, StartsFrom;
    var st := RecoveredLegal(plan, cfg.maxAttempts, log);
    RecoveryAnswers(cfg, plan, log, fetch);
    if !Refused(cfg, ActiveStop(st.log, |st.log|)) {
      var end := LoopAnswered(cfg, plan, log, st, fetch);
    }
  }

  lemma {:induction false} RecoveryAnswers(cfg: Config, plan: seq<nat>, log: seq<Event>, fetch: Oracle)
    ensures var st := Recover(plan, Load(plan, log), 0);
      && log <= st.log && AllAnswered(cfg, fetch, |log|, |log|, st.log) && GoesOn(|log|, st.log)
      && StartsFrom(st.log, |log|) == st.asked
  {
    hide AllAnswered, GoesOn, StartsFrom, Recover;
    RecoverAppends(plan, Load(plan, log), 0, log);
    RecoveriesAreQuiet(cfg, fetch, log, Recover(plan, Load(plan, log), 0).log);
  }

  /** The part of a run after the recovery. */
  lemma {:induction false} LoopAnswered(cfg: Config, plan: seq<nat>, log: seq<Event>, st: St, fetch: Oracle) returns (end: seq<Event>)
    requires ValidPlan(plan) && Legal(plan, cfg.maxAttempts, st.log) && Agrees(plan, st)
    requires log <= st.log && StartsFrom(st.log, |log|) == st.asked
    requires AllAnswered(cfg, fetch, |log|, |log|, st.log) && GoesOn(|log|, st.log)
    ensures var calls := CallsSince(st.log);
      var ready := Check(cfg, st.(calls := calls), calls > 0 || (st.log != [] && !cfg.hasManifest));
      && Knows(plan, ready)
      && var r := Targets(cfg, plan, ready, 0, fetch);
      end == if r.1 == Finished then Check(cfg, r.0, true).log else r.0.log
    ensures log <= end && AllAnswered(cfg, fetch, |log|, |log|, end)
  {
    hide AllAnswered, GoesOn, Targets, Legal, Replay, CallsSince, StartsFrom, Outcome;
    var ready := ReadyLegal(cfg, plan, st);
    var r;
    CheckIsQuiet(cfg, fetch, |log|, st.(calls := CallsSince(st.log)), CallsSince(st.log) > 0 || (st.log != [] && !cfg.hasManifest));
    r, end := LoopLegal(cfg, plan, ready, fetch);
    TargetsAnswered(cfg, plan, ready, 0, fetch, |log|);
    LoopAnswers(cfg, fetch, log, st.log, ready, r, end);
  }

  lemma {:induction false} LoopAnswers(cfg: Config, fetch: Oracle, log: seq<Event>, recovered: seq<Event>, ready: St, r: (St, Exit), end: seq<Event>)
    requires log <= recovered <= ready.log && AllAnswered(cfg, fetch, |log|, |log|, recovered) && GoesOn(|log|, recovered)
    requires AllAnswered(cfg, fetch, |log|, |recovered|, ready.log) && GoesOn(|recovered|, ready.log)
    requires Outcome(cfg, fetch, |log|, ready.log, r)
    requires end == if r.1 == Finished then Check(cfg, r.0, true).log else r.0.log
    ensures AllAnswered(cfg, fetch, |log|, |log|, end)
  {
    hide Answered;
    AllStay(cfg, fetch, |log|, |log|, recovered, ready.log);
    GoOnTogether(|log|, recovered, ready.log);
    AllStay(cfg, fetch, |log|, |log|, ready.log, r.0.log);
    if r.1 == Finished {
      GoOnTogether(|log|, ready.log, r.0.log);
      CheckIsQuiet(cfg, fetch, |log|, r.0, true);
      AllStay(cfg, fetch, |log|, |log|, r.0.log, end);
    }
  }

  // ---- over runs -------------------------------------------------------------------------------

  /** An authentication failure, a risk control or a local failure ends an uncut run with the stop of
      its own kind and a checkpoint: no target is given up for it and nothing more is requested. */
  lemma {:induction false} StopKindEndsRun(cfg: Config, plan: seq<nat>, log: seq<Event>, fetch: Oracle, i: nat)
    requires ValidPlan(plan) && Legal(plan, cfg.maxAttempts, log)
    requires var full := RunLog(cfg, plan, log, fetch);
      |log| <= i < |full| && full[i].Failed? && full[i].kind in {AuthRequired, RiskControl, LocalFailure}
    ensures var full := RunLog(cfg, plan, log, fetch);
      full == full[..i + 1] + [Stopped(full[i].video, full[i].attempt, StopKind(full[i].kind), false), Checkpoint]
  {
    hide RunLog, Replay, StartsFrom;
    RunAnswers(cfg, plan, log, fetch);
    var full := RunLog(cfg, plan, log, fetch);
    assert Answered(cfg, fetch, |log|, full, i);
  }

  /** No exception in the log gives a target up for such an error. */
  ghost predicate NoneGivenUp(log: seq<Event>) {
    forall i :: 0 <= i < |log| && log[i].Exception? ==> GivesUpRightly(log[i].why)
  }

  lemma {:induction false} RunGivesUpRightly(plan: seq<nat>, log: seq<Event>, run: RunInput)
    requires ValidPlan(plan) && Legal(plan, run.cfg.maxAttempts, log) && NoneGivenUp(log)
    ensures NoneGivenUp(CutRun(plan, log, run))
  {
    hide RunLog, AfterStart, AfterFailed, StartsFrom, Replay, Legal, GivesUpRightly;
    RunAnswers(run.cfg, plan, log, run.fetch);
    var full := RunLog(run.cfg, plan, log, run.fetch);
    forall i | 0 <= i < |full| && full[i].Exception? ensures GivesUpRightly(full[i].why) {
      if i >= |log| {
        assert Answered(run.cfg, run.fetch, |log|, full, i);
      }
    }
  }

  /** Across any runs, each cut anywhere, no target is given up for an error that must stop the run. */
  lemma {:induction false} StopKindsGiveNothingUp(plan: seq<nat>, max: nat, log: seq<Event>, runs: seq<RunInput>)
    requires ValidPlan(plan) && SameLimit(runs, max) && Legal(plan, max, log) && NoneGivenUp(log)
    ensures NoneGivenUp(Runs(plan, log, runs))
    decreases |runs|
  {
    hide CutRun, NoneGivenUp, Legal;
    if runs != [] {
      CutLegal(plan, log, runs[0]);
      RunGivesUpRightly(plan, log, runs[0]);
      StopKindsGiveNothingUp(plan, max, CutRun(plan, log, runs[0]), runs[1..]);
    }
  }
}
