/** The condition in `HarvestStreak.StreakStopsEverythingIff` is not idle: with the default limit
    of three attempts, three runs leave a log whose first target has a streak of two and an
    unanswered request. */
module HarvestWitness {
  import opened Wrappers
  import opened Harvest
  import opened HarvestSafety
  import opened HarvestStreak
  import opened HarvestResume
  import opened HarvestRestart

  const PLAN: seq<nat> := [1, 2]

  function Limited(n: nat): Answer {
    Raised(RateLimit, None)
  }

  /** The plan, the limit and the answers of the witness, as variables. */
  ghost predicate Witness(plan: seq<nat>, max: nat, fetch: Oracle) {
    plan == PLAN && max == 3 && forall n :: fetch(n) == Raised(RateLimit, None)
  }

  /** The first target is open, nothing is in flight, and the second was never touched. */
  ghost predicate FirstIsOpen(plan: seq<nat>, max: nat, log: seq<Event>) {
    Legal(plan, max, log) && !Ended(log, 1) && Replay(log, 2) == Replayed(0, None, 0, 0) && LatestOf(Replay(log, 1)) != InFlight
  }

  /** What such a run loads needs no recovery. */
  lemma {:induction false} LoadsAsIs(plan: seq<nat>, max: nat, fetch: Oracle, log: seq<Event>) returns (st: St)
    requires Witness(plan, max, fetch) && FirstIsOpen(plan, max, log)
    ensures st == Recover(plan, Load(plan, log), 0) && st.log == log && Agrees(plan, st)
    ensures 1 in st.mem && st.mem[1] == MemOf(Replay(log, 1))
  {
    st := Load(plan, log);
    LoadIsLoaded(plan, log);
    assert plan[0] == 1 && plan[1] == 2;
    NothingToRecover(plan, st, 0);
  }

  /** The state in which an eager run enters its loop, when nothing is in flight. */
  lemma {:induction false} EntersLoop(plan: seq<nat>, max: nat, fetch: Oracle, log: seq<Event>) returns (st: St, ready: St)
    requires Witness(plan, max, fetch) && FirstIsOpen(plan, max, log)
    ensures st == Recover(plan, Load(plan, log), 0) && st.log == log
    ensures ready == Check(Eager(max), st.(calls := CallsSince(log)), CallsSince(log) > 0)
    ensures ready.log == if CallsSince(log) > 0 then log + [Checkpoint] else log
    ensures Working(plan, max, ready, 0) && Agrees(plan, ready) && ready.asked == 0
    ensures ready.mem[1].attempts == Replay(log, 1).attempts && ready.mem[1].rate == Replay(log, 1).rate
  {
    st := LoadsAsIs(plan, max, fetch, log);
    var calls := CallsSince(log);
    CheckWorks(Eager(max), plan, max, st.(calls := calls), calls > 0);
    ready := Check(Eager(max), st.(calls := calls), calls > 0);
    ReadyAgrees(plan, st, ready);
    assert plan[0] == 1 && AgreesOn(ready, 1);
    AgreeingIsWorking(plan, max, ready, 0);
  }

  /** What one rate-limited attempt leaves: the request, its failure, the stop, a checkpoint. */
  function LimitedAttempt(attempt: nat, rate: nat): seq<Event> {
    [Started(1, attempt), Failed(1, attempt, RateLimit),
     Stopped(1, attempt, if rate >= 2 then PersistentRateLimit else NoSafeRetry, false), Checkpoint]
  }

  lemma {:induction false} AttemptIsLogged(cfg: Config, fetch: Oracle, st: St)
    requires 1 in st.mem && cfg.resume && st.mem[1].rate < 2 && st.mem[1].attempts < cfg.maxAttempts
    requires fetch(st.asked) == Raised(RateLimit, None)
    ensures Target(cfg, st, 1, fetch).0.log == st.log + LimitedAttempt(st.mem[1].attempts + 1, st.mem[1].rate + 1)
  {
    var a := st.mem[1].attempts + 1;
    var s2 := Fail(Start(st, 1, a), 1, a, RateLimit);
    var verdict := Judge(cfg, RateLimit, None, s2.mem[1].rate, a);
    assert verdict == StopRun(if s2.mem[1].rate >= 2 then PersistentRateLimit else NoSafeRetry, false);
    var h := Halt(cfg, s2, 1, a, verdict.reason, false);
    assert h.0.log == s2.log + [Stopped(1, a, verdict.reason, false)] + [Checkpoint];
    assert Attempts(cfg, st, 1, a, fetch) == h;
  }

  /** The log after the first target of an eager run is part of the whole run. */
  lemma {:induction false} TargetOfRun(plan: seq<nat>, max: nat, fetch: Oracle, log: seq<Event>) returns (ready: St, end: seq<Event>, full: seq<Event>)
    requires Witness(plan, max, fetch) && FirstIsOpen(plan, max, log) && !Refused(Eager(max), ActiveStop(log, |log|))
    ensures full == RunLog(Eager(max), plan, log, fetch)
    ensures ready.log == if CallsSince(log) > 0 then log + [Checkpoint] else log
    ensures 1 in ready.mem && ready.mem[1].attempts == Replay(log, 1).attempts && ready.mem[1].rate == Replay(log, 1).rate
    ensures end == Target(Eager(max), ready, 1, fetch).0.log && end <= full
  {
    var st;
    st, ready := EntersLoop(plan, max, fetch, log);
    end, full := Target(Eager(max), ready, 1, fetch).0.log, RunLog(Eager(max), plan, log, fetch);
    TargetIsKept(Eager(max), plan, ready, 0, fetch);
    EagerRunIsItsLoop(plan, max, log, fetch);
  }

  lemma {:induction false} AttemptEnds(max: nat, fetch: Oracle, ready: St, end: seq<Event>, attempts: nat, rate: nat)
    requires 1 in ready.mem && ready.mem[1].attempts == attempts < max && ready.mem[1].rate == rate < 2
    requires fetch(ready.asked) == Raised(RateLimit, None) && end == Target(Eager(max), ready, 1, fetch).0.log
    ensures end == ready.log + LimitedAttempt(attempts + 1, rate + 1)
  {
    AttemptIsLogged(Eager(max), fetch, ready);
  }

  /** What an eager run appends when every request is limited. */
  lemma {:induction false} EagerRun(plan: seq<nat>, max: nat, fetch: Oracle, log: seq<Event>, m: Replayed) returns (start: seq<Event>, full: seq<Event>)
    requires Witness(plan, max, fetch) && FirstIsOpen(plan, max, log) && m == Replay(log, 1)
    requires m.attempts < max && m.rate < 2 && !Refused(Eager(max), ActiveStop(log, |log|))
    ensures full == RunLog(Eager(max), plan, log, fetch)
    ensures start == if CallsSince(log) > 0 then log + [Checkpoint] else log
    ensures start + LimitedAttempt(m.attempts + 1, m.rate + 1) <= full
  {
    hide RunLog, Replay, Target, Legal;
    var ready, end;
    ready, end, full := TargetOfRun(plan, max, fetch, log);
    start := ready.log;
    AttemptEnds(max, fetch, ready, end, m.attempts, m.rate);
  }

  /** A run cut after some of what it appended. */
  lemma {:induction false} CutAfter(plan: seq<nat>, max: nat, fetch: Oracle, log: seq<Event>, whole: seq<Event>, full: seq<Event>, n: nat)
    returns (run: RunInput)
    requires Witness(plan, max, fetch) && Legal(plan, max, log)
    requires full == RunLog(Eager(max), plan, log, fetch) && whole <= full && |log| <= n < |whole|
    ensures run.cfg.maxAttempts == max && CutRun(plan, log, run) == whole[..n] && Legal(plan, max, whole[..n])
  {
    run := RunInput(Eager(max), fetch, n);
    CutLegal(plan, log, run);
    assert full[..n] == whole[..n];
  }

  /** The log after each of the three runs. */
  function AfterFirst(): seq<Event> { [] + [Started(1, 1)] + [Failed(1, 1, RateLimit)] + [Stopped(1, 1, NoSafeRetry, false)] }
  function AfterSecond(): seq<Event> { AfterFirst() + [Checkpoint] + [Started(1, 2)] }
  function AfterThird(): seq<Event> { AfterSecond() + [Checkpoint] + [Started(1, 3)] + [Failed(1, 3, RateLimit)] }

  /** What a target remembers of each log. */
  function FirstMemory(v: nat): Replayed {
    if v == 1 then Replayed(1, Some(Stopped(1, 1, NoSafeRetry, false)), 1, 0) else Replayed(0, None, 0, 0)
  }

  function SecondMemory(v: nat): Replayed {
    if v == 1 then Replayed(2, Some(Stopped(1, 1, NoSafeRetry, false)), 1, 1) else Replayed(0, None, 0, 0)
  }

  lemma {:induction false} ThreeEvents(log: seq<Event>, a: Event, b: Event, c: Event, v: nat)
    ensures var m := Replay(log, v);
      var n := if About(a, v) then Note(m, a) else m;
      var o := if About(b, v) then Note(n, b) else n;
      Replay(log + [a] + [b] + [c], v) == if About(c, v) then Note(o, c) else o
  {
    ReplaySnoc(log, a, v);
    ReplaySnoc(log + [a], b, v);
    ReplaySnoc(log + [a] + [b], c, v);
  }

  lemma {:induction false} MemoryAfterFirst(log: seq<Event>, v: nat)
    requires log == AfterFirst()
    ensures Replay(log, v) == FirstMemory(v)
  {
    ThreeEvents([], Started(1, 1), Failed(1, 1, RateLimit), Stopped(1, 1, NoSafeRetry, false), v);
  }

  lemma {:induction false} MemoryAfterSecond(first: seq<Event>, log: seq<Event>, v: nat)
    requires first == AfterFirst() && log == first + [Checkpoint] + [Started(1, 2)]
    ensures Replay(log, v) == SecondMemory(v)
  {
    MemoryAfterFirst(first, v);
    ReplaySnoc(first, Checkpoint, v);
    ReplaySnoc(first + [Checkpoint], Started(1, 2), v);
  }

  lemma {:induction false} MemoryAfterThird(second: seq<Event>, log: seq<Event>)
    requires second == AfterSecond() && log == second + [Checkpoint] + [Started(1, 3)] + [Failed(1, 3, RateLimit)]
    ensures Replay(log, 1) == Replayed(3, Some(Failed(1, 3, RateLimit)), 2, 1)
  {
    MemoryAfterSecond(AfterFirst(), second, 1);
    ThreeEvents(second, Checkpoint, Started(1, 3), Failed(1, 3, RateLimit), 1);
  }

  lemma {:induction false} FirstRun(plan: seq<nat>, max: nat, fetch: Oracle) returns (run: RunInput)
    requires Witness(plan, max, fetch)
    ensures run.cfg.maxAttempts == max && CutRun(plan, [], run) == AfterFirst() && Legal(plan, max, AfterFirst())
  {
    hide RunLog;
    var start, full := EagerRun(plan, max, fetch, [], Replay([], 1));
    run := CutAfter(plan, max, fetch, [], [] + LimitedAttempt(1, 1), full, 3);
  }

  lemma {:induction false} SecondRun(plan: seq<nat>, max: nat, fetch: Oracle, log: seq<Event>) returns (run: RunInput)
    requires Witness(plan, max, fetch) && log == AfterFirst() && Legal(plan, max, log)
    ensures run.cfg.maxAttempts == max && CutRun(plan, log, run) == AfterSecond() && Legal(plan, max, AfterSecond())
  {
    hide RunLog, Legal, Replay;
    MemoryAfterFirst(log, 1);
    MemoryAfterFirst(log, 2);
    assert ActiveStop(log, 3) == Some(log[2]);
    assert CallsSince(log) == 1 by {
      assert log[..2] == [Started(1, 1), Failed(1, 1, RateLimit)] && log[..2][..1] == [Started(1, 1)];
      assert CallsSince([Started(1, 1)]) == 1;
    }
    var start, full := EagerRun(plan, max, fetch, log, Replay(log, 1));
    run := CutAfter(plan, max, fetch, log, start + LimitedAttempt(2, 2), full, 5);
    assert (start + LimitedAttempt(2, 2))[..5] == AfterSecond();
  }

  lemma {:induction false} ThirdRun(plan: seq<nat>, max: nat, fetch: Oracle, log: seq<Event>) returns (run: RunInput)
    requires Witness(plan, max, fetch) && log == AfterSecond() && Legal(plan, max, log)
    ensures run.cfg.maxAttempts == max && CutRun(plan, log, run) == AfterThird() && Legal(plan, max, AfterThird())
  {
    hide RunLog, Legal, Replay;
    MemoryAfterSecond(AfterFirst(), log, 1);
    MemoryAfterSecond(AfterFirst(), log, 2);
    assert ActiveStop(log, 5).None? by {
      assert Answers(log[4], 1);
      assert ActiveStop(log, 5) == ActiveStop(log, 4) == ActiveStop(log, 3);
      assert ActiveStop(log, 3) == ActiveStop(log, 2) == ActiveStop(log, 1) == ActiveStop(log, 0);
    }
    assert CallsSince(log) == 1 by {
      assert log[..4] == AfterFirst() + [Checkpoint];
    }
    var start, full := EagerRun(plan, max, fetch, log, Replay(log, 1));
    run := CutAfter(plan, max, fetch, log, start + LimitedAttempt(3, 2), full, 8);
    assert (start + LimitedAttempt(3, 2))[..8] == AfterThird();
  }

  /** Three runs: a rate limit stops the first; the second is resumed and dies while its request
      is out; the third is resumed, is rate-limited again and dies before it logs the stop. */
  lemma {:induction false} StreakWithOpenRequest() returns (runs: seq<RunInput>)
    ensures SameLimit(runs, 3)
    ensures var log := Runs(PLAN, [], runs);
      Replay(log, 1).rate == 2 && Replay(log, 1).open == 1 && !Silent(PLAN, 3, log)
  {
    var a := FirstRun(PLAN, 3, Limited);
    var b := SecondRun(PLAN, 3, Limited, AfterFirst());
    var c := ThirdRun(PLAN, 3, Limited, AfterSecond());
    runs := [a, b, c];
    ThreeRuns(a, b, c);
    ThirdIsNotSilent(PLAN, 3, AfterThird());
  }

  /** The first two of these runs leave a request in flight behind a stop, which a later run sends
      again. */
  lemma {:induction false} HiddenRequestIsReached() returns (runs: seq<RunInput>)
    ensures SameLimit(runs, 3)
    ensures var log := Runs(PLAN, [], runs);
      Replay(log, 1).open == 1 && LastIsStop(Replay(log, 1)) && !NeverAgain(PLAN, 3, log, 1)
  {
    hide RunLog, CutRun, NeverAgain, Replay, Legal;
    var a := FirstRun(PLAN, 3, Limited);
    var b := SecondRun(PLAN, 3, Limited, AfterFirst());
    runs := [a, b];
    assert [a, b][1..] == [b] && [b][1..] == [];
    assert Runs(PLAN, AfterFirst(), [b]) == AfterSecond();
    SecondIsReissued(PLAN, 3, AfterSecond());
  }

  lemma {:induction false} SecondIsReissued(plan: seq<nat>, max: nat, log: seq<Event>)
    requires plan == PLAN && max == 3 && log == AfterSecond() && Legal(plan, max, log)
    ensures Replay(log, 1).open == 1 && LastIsStop(Replay(log, 1)) && !NeverAgain(plan, max, log, 1)
  {
    MemoryAfterSecond(AfterFirst(), log, 1);
    NeverAgainIff(plan, max, log, 0);
  }

  lemma {:induction false} ThirdIsNotSilent(plan: seq<nat>, max: nat, log: seq<Event>)
    requires plan == PLAN && max == 3 && log == AfterThird() && Legal(plan, max, log)
    ensures Replay(log, 1).rate == 2 && Replay(log, 1).open == 1 && !Silent(plan, max, log)
  {
    MemoryAfterThird(AfterSecond(), log);
    StreakStopsEverythingIff(plan, max, log, 1);
  }

  lemma {:induction false} ThreeRuns(a: RunInput, b: RunInput, c: RunInput)
    ensures Runs(PLAN, [], [a, b, c]) == CutRun(PLAN, CutRun(PLAN, CutRun(PLAN, [], a), b), c)
  {
    assert [a, b, c][1..] == [b, c] && [b, c][1..] == [c] && [c][1..] == [];
    assert Runs(PLAN, CutRun(PLAN, [], a), [b, c]) == Runs(PLAN, CutRun(PLAN, CutRun(PLAN, [], a), b), [c]);
  }
}
