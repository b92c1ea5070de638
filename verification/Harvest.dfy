/** The resumable publication-date harvest of `src/shiliu/p3_metadata_harvest.py`.

    An append-only log of events drives a retry, stop and resume machine; every run rebuilds its
    memory by folding the log.  This module is the machine as functions: what a whole run
    appends, for an arbitrary plan of targets and arbitrary answers of `fetch_one`. */
module Harvest {
  import opened Wrappers

  /** The classes of `_error_details`. */
  datatype Kind = AuthRequired | RiskControl | RateLimit | Unavailable | LocalFailure | HttpClient | HttpServer | Transient | Upstream

  predicate Stops(k: Kind) {
    k == AuthRequired || k == RiskControl || k == LocalFailure
  }

  predicate Retryable(k: Kind) {
    k == Transient || k == HttpServer || k == RateLimit
  }

  datatype Reason = StopKind(kind: Kind) | PersistentRateLimit | NoSafeRetry | RetryDeferred | BadResponse

  datatype Why = InFlightUnknown | Exhausted | AttemptLimit | ByKind(kind: Kind) | BadPubdate

  /** One line of the log.  `wait`: the stop carries a time before which it must not be resumed. */
  datatype Event =
    | Started(video: nat, attempt: nat)
    | Failed(video: nat, attempt: nat, kind: Kind)
    | Candidate(video: nat, attempts: nat)
    | Exception(video: nat, attempts: nat, why: Why)
    | Stopped(video: nat, attempt: nat, reason: Reason, wait: bool)
    | Checkpoint

  predicate Terminal(e: Event) {
    e.Candidate? || e.Exception?
  }

  predicate About(e: Event, v: nat) {
    !e.Checkpoint? && e.video == v
  }

  /** What `latest` holds for a target; `InFlight` is the marker the fold adds for a request
      that was started and never answered. */
  datatype Latest = Nothing | Seen(e: Event) | InFlight

  /** The fold of the log for one target; `open` counts starts that nothing answered. */
  datatype Replayed = Replayed(attempts: nat, last: Option<Event>, rate: nat, open: nat)

  function Note(m: Replayed, e: Event): Replayed {
    match e
    case Started(_, _) => m.(attempts := m.attempts + 1, open := m.open + 1)
    case Failed(_, _, kind) =>
      Replayed(m.attempts, Some(e), if kind == RateLimit then m.rate + 1 else 0, if m.open > 0 then m.open - 1 else 0)
    case Candidate(_, _) => Replayed(m.attempts, Some(e), 0, 0)
    case Exception(_, _, _) => Replayed(m.attempts, Some(e), 0, 0)
    case Stopped(_, _, _, _) => m.(last := Some(e), open := 0)
    case Checkpoint => m
  }

  function Replay(log: seq<Event>, v: nat): Replayed {
    if log == [] then Replayed(0, None, 0, 0)
    else
      var m := Replay(log[..|log| - 1], v);
      if About(log[|log| - 1], v) then Note(m, log[|log| - 1]) else m
  }

  /** The fold's last pass: an unanswered start counts only if the newest answer is not final. */
  function LatestOf(m: Replayed): Latest {
    if m.open > 0 && (m.last.None? || m.last.value.Failed?) then InFlight
    else if m.last.None? then Nothing else Seen(m.last.value)
  }

  /** The loop's memory of one target. */
  datatype Mem = Mem(attempts: nat, latest: Latest, rate: nat)

  function MemOf(m: Replayed): Mem {
    Mem(m.attempts, LatestOf(m), m.rate)
  }

  predicate Done(m: Mem) {
    m.latest.Seen? && Terminal(m.latest.e)
  }

  datatype Config = Config(maxAttempts: nat, maxWait: real, maxTargets: Option<int>, resume: bool,
                           notBeforePassed: bool, hasManifest: bool, checkpointRequests: nat)

  /** What `fetch_one` did: a usable date, an unusable one, a response that must not be trusted,
      an error, or the operator's interrupt. */
  datatype Answer = Usable | Unusable | Untrusted | Raised(kind: Kind, retryAfter: Option<real>) | Interrupted

  type Oracle = nat -> Answer

  /** A run in progress: the log, the memory, the calls since the last checkpoint, the targets
      newly resolved and the requests sent by this run. */
  datatype St = St(log: seq<Event>, mem: map<nat, Mem>, calls: nat, resolved: nat, asked: nat)

  datatype Exit = Halted | Resolved | OutOfAttempts | Finished

  predicate ValidPlan(plan: seq<nat>) {
    && (forall i :: 0 <= i < |plan| ==> plan[i] > 0)
    && (forall i, j :: 0 <= i < j < |plan| ==> plan[i] != plan[j])
  }

  predicate Knows(plan: seq<nat>, st: St) {
    forall i :: 0 <= i < |plan| ==> plan[i] in st.mem
  }

  function Append(st: St, e: Event): St {
    st.(log := st.log + [e])
  }

  /** `checkpoint`: forced, or due because enough requests were sent since the last one. */
  function Check(cfg: Config, st: St, force: bool): St {
    if force || st.calls >= cfg.checkpointRequests then st.(log := st.log + [Checkpoint], calls := 0) else st
  }

  function Start(st: St, v: nat, attempt: nat): St
    requires v in st.mem
  {
    St(st.log + [Started(v, attempt)], st.mem[v := st.mem[v].(attempts := attempt)], st.calls + 1, st.resolved, st.asked + 1)
  }

  function Fail(st: St, v: nat, attempt: nat, kind: Kind): St
    requires v in st.mem
  {
    var e := Failed(v, attempt, kind);
    st.(log := st.log + [e],
        mem := st.mem[v := Mem(st.mem[v].attempts, Seen(e), if kind == RateLimit then st.mem[v].rate + 1 else 0)])
  }

  function Halt(cfg: Config, st: St, v: nat, attempt: nat, reason: Reason, wait: bool): (St, Exit)
    requires v in st.mem
  {
    var e := Stopped(v, attempt, reason, wait);
    (Check(cfg, st.(log := st.log + [e], mem := st.mem[v := st.mem[v].(latest := Seen(e))]), true), Halted)
  }

  function Resolve(st: St, v: nat, e: Event): St
    requires v in st.mem
  {
    st.(log := st.log + [e], mem := st.mem[v := st.mem[v].(latest := Seen(e))], resolved := st.resolved + 1)
  }

  /** What happens after an attempt failed: stop the run, resolve the target, or try again. */
  datatype Verdict = StopRun(reason: Reason, wait: bool) | GiveUp(why: Why) | Again

  function Judge(cfg: Config, kind: Kind, retryAfter: Option<real>, streak: nat, attempt: nat): Verdict {
    if Stops(kind) then StopRun(StopKind(kind), false)
    else if kind == RateLimit then
      if retryAfter.None? || retryAfter.value <= 0.0 || streak >= 2 || attempt >= cfg.maxAttempts then
        StopRun(if streak >= 2 then PersistentRateLimit else NoSafeRetry, retryAfter.Some? && retryAfter.value > 0.0)
      else if retryAfter.value > cfg.maxWait then StopRun(RetryDeferred, true) else Again
    else if kind == Unavailable || kind == HttpClient then GiveUp(ByKind(kind))
    else if !Retryable(kind) || attempt >= cfg.maxAttempts then GiveUp(if Retryable(kind) then Exhausted else ByKind(kind))
    else if retryAfter.Some? && retryAfter.value > cfg.maxWait then StopRun(RetryDeferred, true) else Again
  }

  /** The attempts of one target, from attempt number `attempt` on. */
  function Attempts(cfg: Config, st: St, v: nat, attempt: nat, fetch: Oracle): (St, Exit)
    requires v in st.mem
    decreases cfg.maxAttempts + 1 - attempt
  {
    if attempt > cfg.maxAttempts then (st, OutOfAttempts)
    else
      var s1 := Start(st, v, attempt);
      match fetch(st.asked)
      case Raised(kind, retryAfter) =>
        var s2 := Fail(s1, v, attempt, kind);
        (match Judge(cfg, kind, retryAfter, s2.mem[v].rate, attempt)
         case StopRun(reason, wait) => Halt(cfg, s2, v, attempt, reason, wait)
         case GiveUp(why) => (Resolve(s2, v, Exception(v, attempt, why)), Resolved)
         case Again => Attempts(cfg, Check(cfg, s2, false), v, attempt + 1, fetch))
      case Untrusted => Halt(cfg, s1, v, attempt, BadResponse, false)
      case Unusable => (Check(cfg, Resolve(s1, v, Exception(v, attempt, BadPubdate)), false), Resolved)
      case Usable => (Check(cfg, Resolve(s1, v, Candidate(v, attempt)), false), Resolved)
      case Interrupted => (Check(cfg, s1, true), Halted)
  }

  /** The newest failure of a target, if it ever failed. */
  function LastFailure(log: seq<Event>, v: nat): Option<Kind> {
    if log == [] then None
    else
      var e := log[|log| - 1];
      if e.Failed? && e.video == v then Some(e.kind) else LastFailure(log[..|log| - 1], v)
  }

  predicate NeedsResume(kind: Option<Kind>) {
    kind == Some(RateLimit) || kind == Some(AuthRequired) || kind == Some(RiskControl)
  }

  /** What follows the attempts of one target. */
  function Conclude(cfg: Config, s: St, v: nat, x: Exit): (St, Exit)
    requires v in s.mem
  {
    match x
    case OutOfAttempts =>
      if s.mem[v].latest.Seen? && s.mem[v].latest.e.Stopped? then (Check(cfg, s, true), Halted)
      else if Done(s.mem[v]) then (s, Resolved)
      else (Check(cfg, Resolve(s, v, Exception(v, s.mem[v].attempts, AttemptLimit)), false), Resolved)
    case Resolved => (Check(cfg, s, false), Resolved)
    case _ => (s, x)
  }

  /** One target that is not yet terminal. */
  function Target(cfg: Config, st: St, v: nat, fetch: Oracle): (St, Exit)
    requires v in st.mem
  {
    if NeedsResume(LastFailure(st.log, v)) && !cfg.resume then (Check(cfg, st, true), Halted)
    else if st.mem[v].rate >= 2 then (Check(cfg, st, true), Halted)
    else
      var r := Attempts(cfg, st, v, st.mem[v].attempts + 1, fetch);
      AttemptsKnow(cfg, st, v, st.mem[v].attempts + 1, fetch);
      Conclude(cfg, r.0, v, r.1)
  }

  lemma {:induction false} AttemptsKnow(cfg: Config, st: St, v: nat, attempt: nat, fetch: Oracle)
    requires v in st.mem
    ensures Attempts(cfg, st, v, attempt, fetch).0.mem.Keys == st.mem.Keys
    decreases cfg.maxAttempts + 1 - attempt
  {
    if attempt <= cfg.maxAttempts {
      var s1 := Start(st, v, attempt);
      var a := fetch(st.asked);
      if a.Raised? {
        var s2 := Fail(s1, v, attempt, a.kind);
        if Judge(cfg, a.kind, a.retryAfter, s2.mem[v].rate, attempt).Again? {
          AttemptsKnow(cfg, Check(cfg, s2, false), v, attempt + 1, fetch);
        }
      }
    }
  }

  lemma {:induction false} TargetKnows(cfg: Config, st: St, v: nat, fetch: Oracle)
    requires v in st.mem
    ensures Target(cfg, st, v, fetch).0.mem.Keys == st.mem.Keys
  {
    AttemptsKnow(cfg, st, v, st.mem[v].attempts + 1, fetch);
  }

  /** The loop over the plan from target `i` on. */
  function Targets(cfg: Config, plan: seq<nat>, st: St, i: nat, fetch: Oracle): (St, Exit)
    requires i <= |plan| && Knows(plan, st)
    decreases |plan| - i
  {
    if i == |plan| then (st, Finished)
    else if Done(st.mem[plan[i]]) then Targets(cfg, plan, st, i + 1, fetch)
    else if cfg.maxTargets.Some? && st.resolved >= cfg.maxTargets.value then (st, Finished)
    else
      var (s, x) := Target(cfg, st, plan[i], fetch);
      TargetKnows(cfg, st, plan[i], fetch);
      if x == Halted then (s, Halted) else Targets(cfg, plan, s, i + 1, fetch)
  }

  /** The memory a run starts from. */
  function Load(plan: seq<nat>, log: seq<Event>): St {
    St(log, map i | 0 <= i < |plan| :: plan[i] := MemOf(Replay(log, plan[i])), 0, 0, 0)
  }

  /** A started request with no durable response is turned into an exception. */
  function Recover(plan: seq<nat>, st: St, i: nat): (r: St)
    requires i <= |plan| && Knows(plan, st)
    ensures r.mem.Keys == st.mem.Keys
    decreases |plan| - i
  {
    if i == |plan| then st
    else
      var v := plan[i];
      if st.mem[v].latest == InFlight then
        var e := Exception(v, st.mem[v].attempts, InFlightUnknown);
        Recover(plan, st.(log := st.log + [e], mem := st.mem[v := st.mem[v].(latest := Seen(e))]), i + 1)
      else Recover(plan, st, i + 1)
  }

  predicate Answers(e: Event, v: nat) {
    (e.Started? || Terminal(e)) && e.video == v
  }

  /** `_active_stop`: the newest stop among the first `n` events that nothing after it resumed. */
  function ActiveStop(log: seq<Event>, n: nat): Option<Event>
    requires n <= |log|
  {
    if n == 0 then None
    else if log[n - 1].Stopped? && !(exists j :: n <= j < |log| && Answers(log[j], log[n - 1].video)) then Some(log[n - 1])
    else ActiveStop(log, n - 1)
  }

  function CallsSince(log: seq<Event>): nat {
    if log == [] || log[|log| - 1].Checkpoint? then 0
    else CallsSince(log[..|log| - 1]) + if log[|log| - 1].Started? then 1 else 0
  }

  predicate Refused(cfg: Config, stop: Option<Event>) {
    stop.Some? && stop.value.Stopped? &&
    (!cfg.resume || stop.value.reason == PersistentRateLimit || (stop.value.wait && !cfg.notBeforePassed))
  }

  /** The log a whole run leaves behind; limits that make no sense are refused at once. */
  function RunLog(cfg: Config, plan: seq<nat>, log: seq<Event>, fetch: Oracle): seq<Event> {
    if cfg.maxAttempts == 0 || cfg.checkpointRequests == 0 then log else ResumeLog(cfg, plan, log, fetch)
  }

  function ResumeLog(cfg: Config, plan: seq<nat>, log: seq<Event>, fetch: Oracle): seq<Event> {
    var st := Recover(plan, Load(plan, log), 0);
    if Refused(cfg, ActiveStop(st.log, |st.log|)) then st.log
    else
      var calls := CallsSince(st.log);
      var ready := Check(cfg, st.(calls := calls), calls > 0 || (st.log != [] && !cfg.hasManifest));
      var (s, x) := Targets(cfg, plan, ready, 0, fetch);
      if x == Finished then Check(cfg, s, true).log else s.log
  }
}
