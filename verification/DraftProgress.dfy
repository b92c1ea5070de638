/** Which step appends which revision of a draft, by the state the step finds: no request is refused
    that should go through, and none goes through that should not. */
module DraftProgress {
  import opened Wrappers
  import opened DraftLog
  import opened DraftSafety

  // ---- the conditions, on the log --------------------------------------------------------------

  predicate IsNew(log: seq<Revision>, command: string) {
    forall i :: 0 <= i < |log| ==> log[i].command != command
  }

  predicate IsLatest(log: seq<Revision>, current: Revision) {
    log != [] && log[|log| - 1].version == current.version
  }

  /** The step appends one revision, the child of `current` with this content. */
  predicate Adds(sys: Sys, e: Event, current: Revision, status: Status, command: string, payload: Request, candidates: seq<string>) {
    Step(sys, e).log == sys.log + [Revision(current.version + 1, Some(current.version), status, current.binding, candidates, command, payload)]
  }

  predicate Replies(sys: Sys, e: Event, outcome: Outcome) {
    PcOf(Step(sys, e), e.c) == Done(outcome)
  }

  /** The draft needs a new look: the caller is told, and the revision says so if it still can. */
  predicate IsBlocked(sys: Sys, e: Event, current: Revision, request: Request) {
    && Replies(sys, e, Failure(Raised))
    && (IsNew(sys.log, Suffixed(request.command, ":blocked")) && IsLatest(sys.log, current) ==>
          Adds(sys, e, current, NeedsRevalidation, Suffixed(request.command, ":blocked"), request, current.candidates))
  }

  predicate Untouched(sys: Sys, e: Event) {
    Step(sys, e).log == sys.log
  }

  lemma {:induction false} FindNone(log: seq<Revision>, command: string)
    ensures Find(log, command).None? <==> IsNew(log, command)
    decreases |log|
  {
    if log != [] {
      FindNone(log[1..], command);
      if IsNew(log[1..], command) && log[0].command != command {
        forall i | 0 <= i < |log| ensures log[i].command != command {
          if i > 0 { assert log[1..][i - 1] == log[i]; }
        }
      }
      if IsNew(log, command) {
        forall i | 0 <= i < |log[1..]| ensures log[1..][i].command != command {
          assert log[1..][i] == log[i + 1];
        }
      }
    }
  }

  lemma {:induction false} AppendsIff(log: seq<Revision>, current: Revision, status: Status, command: string, payload: Request, candidates: seq<string>)
    ensures var w := Append(log, current, status, command, payload, candidates);
      var row := Revision(current.version + 1, Some(current.version), status, current.binding, candidates, command, payload);
      && (IsNew(log, command) && IsLatest(log, current) ==> w.log == log + [row] && w.outcome == Row(row))
      && (!(IsNew(log, command) && IsLatest(log, current)) ==> w.log == log)
      && (IsNew(log, command) && !IsLatest(log, current) ==> w.outcome == Failure(VersionConflict))
  {
    FindNone(log, command);
  }

  lemma {:induction false} OneMore(log: seq<Revision>, a: Revision, b: Revision)
    ensures log + [a] != log && (log + [a] == log + [b] ==> a == b)
  {
    assert |log + [a]| != |log| && (log + [a])[|log|] == a && (log + [b])[|log|] == b;
  }

  // ---- one operation each ----------------------------------------------------------------------

  /** A save appends the first revision exactly when there is none yet. */
  lemma {:induction false} SavesIff(sys: Sys, c: nat, request: Request, binding: nat)
    requires request.SaveRequest? && (PcOf(sys, c).Idle? || PcOf(sys, c).Done?)
    ensures var d, row := Step(sys, DoSave(c, request, binding)), Revision(1, None, Saved, binding, [], request.command, request);
      && (sys.log == [] ==> d.log == [row] && PcOf(d, c) == Done(Row(row)))
      && (sys.log != [] ==> d.log == sys.log)
      && (sys.log != [] && IsNew(sys.log, request.command) ==> PcOf(d, c) == Done(Row(sys.log[|sys.log| - 1])))
  {
    FindNone(sys.log, request.command);
  }

  /** A confirmation goes through exactly when the draft is ready, its sources are sound, the candidates
      are the ones asked for, nothing came in between and the command is new. */
  lemma {:induction false} ConfirmsIff(sys: Sys, c: nat, sound: bool)
    requires var pc := PcOf(sys, c); pc.Got? && pc.kind == Confirm && pc.request.ConfirmRequest?
    ensures var e, pc := Decide(c, sound), PcOf(sys, c);
      var row := Revision(pc.current.version + 1, Some(pc.current.version), Confirmed, pc.current.binding, pc.current.candidates,
                          pc.request.command, pc.request);
      var ready := pc.current.status == PromotionReady;
      var free := IsNew(sys.log, pc.request.command) && IsLatest(sys.log, pc.current);
      var agreed := ready && sound && pc.request.candidates == pc.current.candidates;
      && (Adds(sys, e, pc.current, Confirmed, pc.request.command, pc.request, pc.current.candidates) <==> agreed && free)
      && (agreed && free ==> Replies(sys, e, Row(row)))
      && (ready && sound && !agreed ==> Untouched(sys, e) && Replies(sys, e, Failure(CandidateMismatch)))
      && (!ready ==> Untouched(sys, e))
      && (!ready ==> Replies(sys, e, if pc.current.status == Confirmed then Row(pc.current) else Failure(NotReady)))
      && (ready && !sound ==> IsBlocked(sys, e, pc.current, pc.request))
  {
    hide Append;
    var pc := PcOf(sys, c);
    AppendsIff(sys.log, pc.current, Confirmed, pc.request.command, pc.request, pc.current.candidates);
    AppendsIff(sys.log, pc.current, NeedsRevalidation, Suffixed(pc.request.command, BLOCKED), pc.request, pc.current.candidates);
    OneMore(sys.log, Next(pc.current, Confirmed, pc.request.command, pc.request, pc.current.candidates),
            Next(pc.current, NeedsRevalidation, Suffixed(pc.request.command, BLOCKED), pc.request, pc.current.candidates));
  }

  /** Preparation starts exactly on a draft that is saved, blocked or failed, when its sources are sound,
      nothing came in between and the command is new. */
  lemma {:induction false} PreparesIff(sys: Sys, c: nat, sound: bool)
    requires var pc := PcOf(sys, c); pc.Got? && pc.kind == Prepare
    ensures var e, pc := Decide(c, sound), PcOf(sys, c);
      var row := Revision(pc.current.version + 1, Some(pc.current.version), Materializing, pc.current.binding, pc.current.candidates,
                          Suffixed(pc.request.command, ":started"), pc.request);
      var open := pc.current.status == Saved || pc.current.status == NeedsRevalidation || pc.current.status == Failed;
      var free := IsNew(sys.log, Suffixed(pc.request.command, ":started")) && IsLatest(sys.log, pc.current);
      && (Adds(sys, e, pc.current, Materializing, Suffixed(pc.request.command, ":started"), pc.request, pc.current.candidates) <==>
            open && sound && free)
      && (open && sound && free ==> PcOf(Step(sys, e), c) == Working(pc.request, row))
      && (!open ==> Untouched(sys, e) && Replies(sys, e, Row(pc.current)))
      && (open && !sound ==> IsBlocked(sys, e, pc.current, pc.request))
  {
    hide Append;
    var pc := PcOf(sys, c);
    AppendsIff(sys.log, pc.current, Materializing, Suffixed(pc.request.command, STARTED), pc.request, pc.current.candidates);
    AppendsIff(sys.log, pc.current, NeedsRevalidation, Suffixed(pc.request.command, BLOCKED), pc.request, pc.current.candidates);
    OneMore(sys.log, Next(pc.current, Materializing, Suffixed(pc.request.command, STARTED), pc.request, pc.current.candidates),
            Next(pc.current, NeedsRevalidation, Suffixed(pc.request.command, BLOCKED), pc.request, pc.current.candidates));
  }

  /** Preparation ends ready, with the candidates it found, exactly when it found some. */
  lemma {:induction false} FinishesIff(sys: Sys, c: nat, candidates: Option<seq<string>>)
    requires PcOf(sys, c).Working?
    ensures var e, pc := Finish(c, candidates), PcOf(sys, c);
      var found := candidates.Some? && |candidates.value| > 0;
      var free := IsNew(sys.log, pc.request.command) && IsLatest(sys.log, pc.started);
      && (found && free ==> Adds(sys, e, pc.started, PromotionReady, pc.request.command, pc.request, candidates.value))
      && (!found && free ==> Adds(sys, e, pc.started, Failed, pc.request.command, pc.request, pc.started.candidates) &&
                             Replies(sys, e, Failure(Raised)))
      && (!free ==> Untouched(sys, e))
  {
    hide Append;
    var pc := PcOf(sys, c);
    if candidates.Some? {
      AppendsIff(sys.log, pc.started, PromotionReady, pc.request.command, pc.request, candidates.value);
    }
    AppendsIff(sys.log, pc.started, Failed, pc.request.command, pc.request, pc.started.candidates);
  }

  /** Anything but a confirmed draft can be cancelled. */
  lemma {:induction false} CancelsIff(sys: Sys, c: nat, sound: bool)
    requires var pc := PcOf(sys, c); pc.Got? && pc.kind == Cancel
    ensures var e, pc := Decide(c, sound), PcOf(sys, c);
      var free := IsNew(sys.log, pc.request.command) && IsLatest(sys.log, pc.current);
      && (Adds(sys, e, pc.current, Cancelled, pc.request.command, pc.request, pc.current.candidates) <==>
            pc.current.status != Confirmed && free)
      && (pc.current.status == Confirmed ==> Untouched(sys, e) && Replies(sys, e, Failure(AlreadyConfirmed)))
  {
    hide Append;
    var pc := PcOf(sys, c);
    AppendsIff(sys.log, pc.current, Cancelled, pc.request.command, pc.request, pc.current.candidates);
    var row := Next(pc.current, Cancelled, pc.request.command, pc.request, pc.current.candidates);
    OneMore(sys.log, row, row);
  }

  /** A request whose version is the latest and whose command is new reaches its decision, with the
      latest revision in hand. */
  lemma {:induction false} RequestIsHeard(sys: Sys, c: nat, kind: Kind, request: Request)
    requires Fits(kind, request) && (PcOf(sys, c).Idle? || PcOf(sys, c).Done?)
    ensures var asked := Step(sys, Call(c, kind, request));
      var checked := Step(asked, Replay(c));
      var got := Step(checked, Expect(c));
      && got.log == sys.log
      && (PcOf(got, c) == (if !IsNew(sys.log, request.command) then PcOf(checked, c)
                           else if sys.log == [] then Done(Failure(NotFound))
                           else if sys.log[|sys.log| - 1].version != request.version then Done(Failure(VersionConflict))
                           else Got(kind, request, sys.log[|sys.log| - 1])))
      && (!IsNew(sys.log, request.command) ==> PcOf(checked, c).Done?)
  {
    FindNone(sys.log, request.command);
  }
}
