/** What every interleaving of callers keeps of a draft's revisions. */
module DraftSafety {
  import opened Wrappers
  import opened DraftLog

  /** The statuses that may follow one another. */
  predicate Follows(a: Status, b: Status) {
    match a
    case Saved => b in {Materializing, NeedsRevalidation, Cancelled}
    case NeedsRevalidation => b in {Materializing, NeedsRevalidation, Cancelled}
    case Failed => b in {Materializing, NeedsRevalidation, Cancelled}
    case Materializing => b in {PromotionReady, Failed, Cancelled}
    case PromotionReady => b in {Confirmed, NeedsRevalidation, Cancelled}
    case Confirmed => false
    case Cancelled => b == Cancelled
  }

  /** The one other way: a preparation that takes a blocked row for its own started row, which
      it can when both suffixed ids are cut to the same text but not to the id itself. */
  predicate Slips(a: Status, b: Status, command: string) {
    a == NeedsRevalidation && b in {PromotionReady, Failed} && Suffixed(command, STARTED) == Suffixed(command, BLOCKED) != command
  }

  /** Where a row's command id comes from. */
  predicate Labelled(r: Revision) {
    (r.status == Saved <==> r.payload.SaveRequest?) &&
    if r.status == Materializing then r.command == Suffixed(r.payload.command, STARTED)
    else if r.status == NeedsRevalidation then r.command == Suffixed(r.payload.command, BLOCKED)
    else r.command == r.payload.command
  }

  /** A row follows the one before it: number, parent, binding, status, and a confirmation binds
      exactly the candidates of the preview. */
  predicate Links(a: Revision, b: Revision) {
    && b.version == a.version + 1 && b.parent == Some(a.version) && b.binding == a.binding
    && (Follows(a.status, b.status) || Slips(a.status, b.status, b.payload.command))
    && (b.status == Confirmed ==> b.payload.ConfirmRequest? && b.payload.candidates == b.candidates == a.candidates)
  }

  ghost predicate Chained(log: seq<Revision>) {
    && (log != [] ==> log[0].version == 1 && log[0].parent == None && log[0].status == Saved)
    && (forall i :: 0 <= i < |log| - 1 ==> Links(log[i], log[i + 1]))
  }

  ghost predicate OncePerCommand(log: seq<Revision>) {
    forall i, j :: 0 <= i < j < |log| ==> log[i].command != log[j].command
  }

  ghost predicate AllLabelled(log: seq<Revision>) {
    forall r :: r in log ==> Labelled(r)
  }

  /** What a caller carries is in the log. */
  ghost predicate PcOk(log: seq<Revision>, pc: Pc) {
    match pc
    case Asked(kind, request) => Fits(kind, request)
    case Checked(kind, request) => Fits(kind, request)
    case Got(kind, request, current) => Fits(kind, request) && current in log
    case Working(request, started) =>
      && request.CommandRequest? && started in log && started.payload == request
      && started.command == Suffixed(request.command, STARTED)
    case _ => true
  }

  ghost predicate LogOk(log: seq<Revision>) {
    Chained(log) && OncePerCommand(log) && AllLabelled(log)
  }

  ghost predicate Inv(sys: Sys) {
    LogOk(sys.log) && forall c :: c in sys.callers ==> PcOk(sys.log, sys.callers[c])
  }

  lemma {:induction false} FindIs(log: seq<Revision>, command: string)
    ensures Find(log, command).Some? ==> Find(log, command).value in log && Find(log, command).value.command == command
    ensures Find(log, command).None? ==> forall r :: r in log ==> r.command != command
  {
    if log != [] && log[0].command != command {
      FindIs(log[1..], command);
      assert log == [log[0]] + log[1..];
    }
  }

  lemma {:induction false} FindOnce(log: seq<Revision>, r: Revision)
    requires OncePerCommand(log) && r in log
    ensures Find(log, r.command) == Some(r)
  {
    FindIs(log, r.command);
    var i :| 0 <= i < |log| && log[i] == r;
    var f := Find(log, r.command).value;
    var j :| 0 <= j < |log| && log[j] == f;
    assert i == j;
  }

  lemma {:induction false} VersionIsPlace(log: seq<Revision>, i: nat)
    requires Chained(log) && i < |log|
    ensures log[i].version == i + 1
  {
    if i > 0 {
      VersionIsPlace(log, i - 1);
      assert Links(log[i - 1], log[i]);
    }
  }

  /** A row of the log with the last version is the last row. */
  lemma {:induction false} LatestIsLast(log: seq<Revision>, r: Revision)
    requires Chained(log) && r in log && log[|log| - 1].version == r.version
    ensures log[|log| - 1] == r
  {
    var i :| 0 <= i < |log| && log[i] == r;
    VersionIsPlace(log, i);
    VersionIsPlace(log, |log| - 1);
  }

  /** What an append may be asked for. */
  predicate Proper(current: Revision, status: Status, command: string, payload: Request, candidates: seq<string>) {
    && (Follows(current.status, status) || Slips(current.status, status, payload.command))
    && Labelled(Next(current, status, command, payload, candidates))
    && (status == Confirmed ==> payload.ConfirmRequest? && payload.candidates == candidates == current.candidates)
  }

  /** An append keeps the chain, or leaves the log as it was; what it returns is in the log. */
  lemma {:induction false} AppendKeeps(log: seq<Revision>, current: Revision, status: Status, command: string, payload: Request, candidates: seq<string>)
    requires LogOk(log) && current in log
    requires Find(log, command).None? ==> Proper(current, status, command, payload, candidates)
    ensures var w := Append(log, current, status, command, payload, candidates);
      && LogOk(w.log) && log <= w.log
      && (w.outcome.Row? ==> w.outcome.revision in w.log && w.outcome.revision.command == command && w.outcome.revision.payload == payload)
  {
    FindIs(log, command);
    var w := Append(log, current, status, command, payload, candidates);
    if w.log != log {
      LatestIsLast(log, current);
      ExtendKeeps(log, Next(current, status, command, payload, candidates));
    }
  }

  lemma {:induction false} ExtendKeeps(log: seq<Revision>, row: Revision)
    requires LogOk(log) && log != [] && Links(log[|log| - 1], row) && Labelled(row) && forall r :: r in log ==> r.command != row.command
    ensures LogOk(log + [row])
  {
    var more := log + [row];
    forall i | 0 <= i < |more| - 1 ensures Links(more[i], more[i + 1]) {
      if i < |log| - 1 {
        assert Links(log[i], log[i + 1]);
      }
    }
    forall i, j | 0 <= i < j < |more| ensures more[i].command != more[j].command {
      assert more[i] in log;
    }
  }

  lemma {:induction false} SaveKeeps(log: seq<Revision>, request: Request, binding: nat)
    requires LogOk(log) && request.SaveRequest?
    ensures var w := Save(log, request, binding); LogOk(w.log) && log <= w.log
  {
  }

  /** What a preparation works on while its own id has no row: its started row, or a blocked row
      of the same request under the same cut id. */
  lemma {:induction false} StartedIs(log: seq<Revision>, started: Revision, request: Request)
    requires AllLabelled(log) && started in log && started.payload == request
    requires started.command == Suffixed(request.command, STARTED) && Find(log, request.command).None?
    ensures started.status == Materializing || Slips(started.status, PromotionReady, request.command)
  {
    FindIs(log, request.command);
    assert Labelled(started);
  }

  lemma {:induction false} GotoKeeps(sys: Sys, c: nat, log: seq<Revision>, pc: Pc)
    requires Inv(sys) && LogOk(log) && sys.log <= log && PcOk(log, pc)
    ensures Inv(Goto(sys, c, log, pc))
  {
    forall d | d in sys.callers ensures PcOk(log, sys.callers[d]) {
      assert forall r :: r in sys.log ==> r in log;
    }
  }

  lemma {:induction false} PrepareKeeps(sys: Sys, c: nat, request: Request, current: Revision, sound: bool)
    requires Inv(sys) && request.CommandRequest? && current in sys.log
    ensures Inv(DecidePrepare(sys, c, request, current, sound)) && sys.log <= DecidePrepare(sys, c, request, current, sound).log
  {
    if current.status !in {Saved, NeedsRevalidation, Failed} {
      GotoKeeps(sys, c, sys.log, Done(Row(current)));
    } else if !sound {
      AppendKeeps(sys.log, current, NeedsRevalidation, Suffixed(request.command, BLOCKED), request, current.candidates);
      var w := Append(sys.log, current, NeedsRevalidation, Suffixed(request.command, BLOCKED), request, current.candidates);
      GotoKeeps(sys, c, w.log, Done(Failure(Raised)));
    } else {
      AppendKeeps(sys.log, current, Materializing, Suffixed(request.command, STARTED), request, current.candidates);
      var w := Append(sys.log, current, Materializing, Suffixed(request.command, STARTED), request, current.candidates);
      if w.outcome.Row? {
        GotoKeeps(sys, c, w.log, Working(request, w.outcome.revision));
      } else {
        GotoKeeps(sys, c, w.log, Done(w.outcome));
      }
    }
  }

  lemma {:induction false} ConfirmKeeps(sys: Sys, c: nat, request: Request, current: Revision, sound: bool)
    requires Inv(sys) && request.ConfirmRequest? && current in sys.log
    ensures Inv(DecideConfirm(sys, c, request, current, sound)) && sys.log <= DecideConfirm(sys, c, request, current, sound).log
  {
    if current.status == PromotionReady && !sound {
      AppendKeeps(sys.log, current, NeedsRevalidation, Suffixed(request.command, BLOCKED), request, current.candidates);
    } else if current.status == PromotionReady && request.candidates == current.candidates {
      AppendKeeps(sys.log, current, Confirmed, request.command, request, current.candidates);
    }
    var after := DecideConfirm(sys, c, request, current, sound);
    GotoKeeps(sys, c, after.log, after.callers[c]);
  }

  lemma {:induction false} CancelKeeps(sys: Sys, c: nat, request: Request, current: Revision)
    requires Inv(sys) && !request.SaveRequest? && current in sys.log
    ensures Inv(DecideCancel(sys, c, request, current)) && sys.log <= DecideCancel(sys, c, request, current).log
  {
    if current.status != Confirmed {
      AppendKeeps(sys.log, current, Cancelled, request.command, request, current.candidates);
    }
    var after := DecideCancel(sys, c, request, current);
    GotoKeeps(sys, c, after.log, after.callers[c]);
  }

  lemma {:induction false} FinishKeeps(sys: Sys, c: nat, candidates: Option<seq<string>>)
    requires Inv(sys)
    ensures Inv(Step(sys, Finish(c, candidates))) && sys.log <= Step(sys, Finish(c, candidates)).log
  {
    var pc := PcOf(sys, c);
    if pc.Working? {
      assert PcOk(sys.log, pc);
      if Find(sys.log, pc.request.command).None? {
        StartedIs(sys.log, pc.started, pc.request);
      }
      if candidates.Some? && candidates.value != [] {
        AppendKeeps(sys.log, pc.started, PromotionReady, pc.request.command, pc.request, candidates.value);
      } else {
        AppendKeeps(sys.log, pc.started, Failed, pc.request.command, pc.request, pc.started.candidates);
      }
      var after := Step(sys, Finish(c, candidates));
      GotoKeeps(sys, c, after.log, after.callers[c]);
    }
  }

  lemma {:induction false} StepKeeps(sys: Sys, e: Event)
    requires Inv(sys)
    ensures Inv(Step(sys, e)) && sys.log <= Step(sys, e).log
  {
    var pc := PcOf(sys, e.c);
    assert PcOk(sys.log, pc);
    match e
    case DoSave(c, request, binding) =>
      if request.SaveRequest? {
        SaveKeeps(sys.log, request, binding);
        var w := Save(sys.log, request, binding);
        GotoKeeps(sys, c, w.log, Done(w.outcome));
      }
    case Decide(c, sound) =>
      if pc.Got? {
        match pc.kind
        case Prepare => PrepareKeeps(sys, c, pc.request, pc.current, sound);
        case Confirm => ConfirmKeeps(sys, c, pc.request, pc.current, sound);
        case Cancel => CancelKeeps(sys, c, pc.request, pc.current);
      }
    case Finish(c, candidates) => FinishKeeps(sys, c, candidates);
    case _ =>
      var after := Step(sys, e);
      if after != sys {
        GotoKeeps(sys, e.c, after.log, after.callers[e.c]);
      }
  }

  lemma {:induction false} RunKeeps(events: seq<Event>)
    ensures Inv(Run(events))
  {
    if events != [] {
      var init, e := events[..|events| - 1], events[|events| - 1];
      RunKeeps(init);
      StepKeeps(Run(init), e);
    }
  }

  lemma {:induction false} LogGrows(events: seq<Event>, n: nat)
    requires n <= |events|
    ensures Run(events[..n]).log <= Run(events).log
    decreases |events|
  {
    if n == |events| {
      assert events[..n] == events;
    } else {
      var init := events[..|events| - 1];
      assert init[..n] == events[..n];
      LogGrows(init, n);
      RunKeeps(init);
      StepKeeps(Run(init), events[|events| - 1]);
    }
  }

  // ---- the main statements ---------------------------------------------------------------------

  /** Under any interleaving and any crashes: revisions number 1..n, each names the one before it,
      all share the first one's binding, and each command id appears once. */
  lemma {:induction false} RevisionsAreAChain(events: seq<Event>, i: nat)
    requires i < |Run(events).log|
    ensures var log := Run(events).log;
      && log[i].version == i + 1 && log[i].parent == (if i == 0 then None else Some(i)) && log[i].binding == log[0].binding
      && forall j :: 0 <= j < |log| && log[j].command == log[i].command ==> j == i
    decreases i
  {
    RunKeeps(events);
    var log := Run(events).log;
    VersionIsPlace(log, i);
    if i > 0 {
      RevisionsAreAChain(events, i - 1);
      VersionIsPlace(log, i - 1);
      assert Links(log[i - 1], log[i]);
    }
  }

  /** Nothing follows a confirmed revision, only cancelled follows cancelled, and a confirmation
      follows a preview of exactly the candidates it was asked to confirm. */
  lemma {:induction false} ConfirmedIsFinal(events: seq<Event>, i: nat)
    requires i < |Run(events).log|
    ensures var log := Run(events).log;
      && (log[i].status == Confirmed ==> i == |log| - 1)
      && (log[i].status == Cancelled ==> forall j :: i <= j < |log| ==> log[j].status == Cancelled)
      && (log[i].status == Confirmed ==>
            i > 0 && log[i - 1].status == PromotionReady && log[i].payload.ConfirmRequest? &&
            log[i].payload.candidates == log[i - 1].candidates)
  {
    RunKeeps(events);
    var log := Run(events).log;
    assert i < |log| - 1 ==> Links(log[i], log[i + 1]);
    assert i > 0 ==> Links(log[i - 1], log[i]);
    if log[i].status == Cancelled {
      forall j | i <= j < |log| ensures log[j].status == Cancelled {
        CancelledStays(log, i, j);
      }
    }
  }

  lemma {:induction false} CancelledStays(log: seq<Revision>, i: nat, j: nat)
    requires Chained(log) && i <= j < |log| && log[i].status == Cancelled
    ensures log[j].status == Cancelled
  {
    if i < j {
      CancelledStays(log, i, j - 1);
      assert Links(log[j - 1], log[j]);
    }
  }

  /** Once a request has its row, the request asked again at any later time returns that row, the
      same request with another payload is refused, and the log stays as it is.  Unless the id has
      the full 160 characters, the row is the request's final one, never the one that only says
      that work started or was blocked. */
  lemma {:induction false} ReplayReturnsStoredRow(events: seq<Event>, n: nat, r: Revision, c: nat)
    requires n <= |events| && r in Run(events[..n]).log
    requires PcOf(Run(events), c).Asked? && PcOf(Run(events), c).request.command == r.command
    ensures var sys, pc := Run(events), PcOf(Run(events), c);
      && Step(sys, Replay(c)).log == sys.log
      && PcOf(Step(sys, Replay(c)), c) == Done(if r.payload == pc.request then Row(r) else Failure(PayloadMismatch))
      && (r.payload == pc.request && |r.command| != 160 ==> r.status != Materializing && r.status != NeedsRevalidation)
  {
    RunKeeps(events);
    LogGrows(events, n);
    FindOnce(Run(events).log, r);
    assert Labelled(r);
    SuffixGrows(r.payload.command, STARTED);
    SuffixGrows(r.payload.command, BLOCKED);
  }

  lemma {:induction false} SuffixGrows(command: string, suffix: string)
    requires suffix != []
    ensures Suffixed(command, suffix) == command ==> |command| == 160
  {
  }
}
