/** The revisions of one knowledge draft: `src/shiliu/knowledge_draft.py`.  Hashes are taken as
    injective, so a payload hash is the payload and a revision id is the version it is made from. */
module DraftLog {
  import opened Wrappers

  datatype Status = Saved | NeedsRevalidation | Materializing | Failed | PromotionReady | Confirmed | Cancelled

  /** A request; its hash covers the command id. */
  datatype Request =
    | SaveRequest(command: string, source: string)
    | CommandRequest(command: string, version: int)
    | ConfirmRequest(command: string, version: int, candidates: seq<string>)

  /** `binding`: origin, source snapshot and hash, evidence, scope, limitations, dedupe identity. */
  datatype Revision = Revision(version: int, parent: Option<int>, status: Status, binding: nat, candidates: seq<string>,
                               command: string, payload: Request)

  datatype Error = NotFound | VersionConflict | PayloadMismatch | NotReady | AlreadyConfirmed | CandidateMismatch | Raised

  datatype Outcome = Row(revision: Revision) | Failure(error: Error)

  /** `f"{command}{suffix}"[:160]`. */
  function Suffixed(command: string, suffix: string): string {
    var s := command + suffix;
    if |s| > 160 then s[..160] else s
  }

  const STARTED := ":started"
  const BLOCKED := ":blocked"

  /** The row of a command. */
  function Find(log: seq<Revision>, command: string): Option<Revision> {
    if log == [] then None
    else if log[0].command == command then Some(log[0])
    else Find(log[1..], command)
  }

  /** The replay rule: None when the command is new. */
  function Replayed(log: seq<Revision>, command: string, payload: Request): Option<Outcome> {
    match Find(log, command)
    case None => None
    case Some(r) => Some(if r.payload == payload then Row(r) else Failure(PayloadMismatch))
  }

  /** What a step leaves: the log and what the caller gets. */
  datatype Written = Written(log: seq<Revision>, outcome: Outcome)

  function Next(current: Revision, status: Status, command: string, payload: Request, candidates: seq<string>): Revision {
    Revision(current.version + 1, Some(current.version), status, current.binding, candidates, command, payload)
  }

  /** `_append`, one transaction. */
  function Append(log: seq<Revision>, current: Revision, status: Status, command: string, payload: Request, candidates: seq<string>): Written {
    match Replayed(log, command, payload)
    case Some(outcome) => Written(log, outcome)
    case None =>
      if log == [] || log[|log| - 1].version != current.version then Written(log, Failure(VersionConflict))
      else
        var row := Next(current, status, command, payload, candidates);
        Written(log + [row], Row(row))
  }

  /** `save`, one transaction once the source is read. */
  function Save(log: seq<Revision>, request: Request, binding: nat): Written {
    match Replayed(log, request.command, request)
    case Some(outcome) => Written(log, outcome)
    case None =>
      if log != [] then Written(log, Row(log[|log| - 1]))
      else
        var row := Revision(1, None, Saved, binding, [], request.command, request);
        Written([row], Row(row))
  }

  /** `_expected`. */
  function Expected(log: seq<Revision>, version: int): Outcome {
    if log == [] then Failure(NotFound)
    else if log[|log| - 1].version != version then Failure(VersionConflict)
    else Row(log[|log| - 1])
  }

  // ---- callers, one transaction a step ---------------------------------------------------------

  datatype Kind = Prepare | Confirm | Cancel

  /** Where a caller stands between its transactions. */
  datatype Pc =
    | Idle
    | Asked(kind: Kind, request: Request)
    | Checked(kind: Kind, request: Request)
    | Got(kind: Kind, request: Request, current: Revision)
    | Working(request: Request, started: Revision)
    | Done(outcome: Outcome)

  datatype Sys = Sys(log: seq<Revision>, callers: map<nat, Pc>)

  function PcOf(sys: Sys, c: nat): Pc {
    if c in sys.callers then sys.callers[c] else Idle
  }

  function Goto(sys: Sys, c: nat, log: seq<Revision>, pc: Pc): Sys {
    Sys(log, sys.callers[c := pc])
  }

  /** What the world outside decides: the source is current, the work succeeds. */
  datatype Event =
    | DoSave(c: nat, request: Request, binding: nat)
    | Call(c: nat, kind: Kind, request: Request)
    | Replay(c: nat)
    | Expect(c: nat)
    | Decide(c: nat, sound: bool)
    | Finish(c: nat, candidates: Option<seq<string>>)
    | Crash(c: nat)

  /** The requests an operation takes. */
  predicate Fits(kind: Kind, request: Request) {
    if kind == Confirm then request.ConfirmRequest? else request.CommandRequest?
  }

  function DecidePrepare(sys: Sys, c: nat, request: Request, current: Revision, sound: bool): Sys {
    if current.status !in {Saved, NeedsRevalidation, Failed} then Goto(sys, c, sys.log, Done(Row(current)))
    else if !sound then
      var w := Append(sys.log, current, NeedsRevalidation, Suffixed(request.command, BLOCKED), request, current.candidates);
      Goto(sys, c, w.log, Done(Failure(Raised)))
    else
      var w := Append(sys.log, current, Materializing, Suffixed(request.command, STARTED), request, current.candidates);
      Goto(sys, c, w.log, if w.outcome.Row? then Working(request, w.outcome.revision) else Done(w.outcome))
  }

  /** `sound`: the source is current and the candidates wait unchanged for review. */
  function DecideConfirm(sys: Sys, c: nat, request: Request, current: Revision, sound: bool): Sys
    requires request.ConfirmRequest?
  {
    if current.status == Confirmed then Goto(sys, c, sys.log, Done(Row(current)))
    else if current.status != PromotionReady then Goto(sys, c, sys.log, Done(Failure(NotReady)))
    else if !sound then
      var w := Append(sys.log, current, NeedsRevalidation, Suffixed(request.command, BLOCKED), request, current.candidates);
      Goto(sys, c, w.log, Done(Failure(Raised)))
    else if request.candidates != current.candidates then Goto(sys, c, sys.log, Done(Failure(CandidateMismatch)))
    else
      var w := Append(sys.log, current, Confirmed, request.command, request, current.candidates);
      Goto(sys, c, w.log, Done(w.outcome))
  }

  function DecideCancel(sys: Sys, c: nat, request: Request, current: Revision): Sys {
    if current.status == Confirmed then Goto(sys, c, sys.log, Done(Failure(AlreadyConfirmed)))
    else
      var w := Append(sys.log, current, Cancelled, request.command, request, current.candidates);
      Goto(sys, c, w.log, Done(w.outcome))
  }

  function Step(sys: Sys, e: Event): Sys {
    var pc := PcOf(sys, e.c);
    match e
    case DoSave(c, request, binding) =>
      if request.SaveRequest? && (pc.Idle? || pc.Done?) then
        var w := Save(sys.log, request, binding);
        Goto(sys, c, w.log, Done(w.outcome))
      else sys
    case Call(c, kind, request) =>
      if Fits(kind, request) && (pc.Idle? || pc.Done?) then Goto(sys, c, sys.log, Asked(kind, request)) else sys
    case Replay(c) =>
      if !pc.Asked? then sys
      else
        var r := Replayed(sys.log, pc.request.command, pc.request);
        Goto(sys, c, sys.log, if r.Some? then Done(r.value) else Checked(pc.kind, pc.request))
    case Expect(c) =>
      if !pc.Checked? || pc.request.SaveRequest? then sys
      else
        var r := Expected(sys.log, pc.request.version);
        Goto(sys, c, sys.log, if r.Row? then Got(pc.kind, pc.request, r.revision) else Done(r))
    case Decide(c, sound) =>
      if !pc.Got? then sys
      else
        (match pc.kind
         case Prepare => DecidePrepare(sys, c, pc.request, pc.current, sound)
         case Confirm => if pc.request.ConfirmRequest? then DecideConfirm(sys, c, pc.request, pc.current, sound) else sys
         case Cancel => DecideCancel(sys, c, pc.request, pc.current))
    case Finish(c, candidates) =>
      if !pc.Working? then sys
      else
        var w := if candidates.Some? && candidates.value != [] then
                   Append(sys.log, pc.started, PromotionReady, pc.request.command, pc.request, candidates.value)
                 else Append(sys.log, pc.started, Failed, pc.request.command, pc.request, pc.started.candidates);
        Goto(sys, c, w.log, Done(if w.outcome.Row? && !(candidates.Some? && candidates.value != []) then Failure(Raised) else w.outcome))
    case Crash(c) => Goto(sys, c, sys.log, Idle)
  }

  function Run(events: seq<Event>): Sys {
    if events == [] then Sys([], map[]) else Step(Run(events[..|events| - 1]), events[|events| - 1])
  }

  // ---- the transactions as the program has them ------------------------------------------------

  /** The table of one draft's revisions. */
  class DraftTable {
    var log: seq<Revision>

    constructor ()
      ensures log == []
    {
      log := [];
    }

    /** The row of a command, if any. */
    method Lookup(command: string) returns (row: Option<Revision>)
      ensures row == Find(log, command)
    {
      var i := 0;
      while i < |log|
        invariant 0 <= i <= |log| && Find(log, command) == Find(log[i..], command)
      {
        if log[i].command == command {
          return Some(log[i]);
        }
        i := i + 1;
      }
      row := None;
    }

    /** `_command_replay`. */
    method CommandReplay(command: string, payload: Request) returns (outcome: Option<Outcome>)
      ensures outcome == Replayed(log, command, payload)
    {
      var row := Lookup(command);
      if row.None? {
        return None;
      }
      if row.value.payload != payload {
        return Some(Failure(PayloadMismatch));
      }
      outcome := Some(Row(row.value));
    }

    /** `_append`. */
    method AppendRevision(current: Revision, status: Status, command: string, payload: Request, candidates: seq<string>)
      returns (outcome: Outcome)
      modifies this
      ensures Written(log, outcome) == Append(old(log), current, status, command, payload, candidates)
    {
      var existing := Lookup(command);
      if existing.Some? {
        if existing.value.payload != payload {
          return Failure(PayloadMismatch);
        }
        return Row(existing.value);
      }
      if log == [] || log[|log| - 1].version != current.version {
        return Failure(VersionConflict);
      }
      var row := Revision(current.version + 1, Some(current.version), status, current.binding, candidates, command, payload);
      log := log + [row];
      outcome := Row(row);
    }

    /** `save`'s transaction. */
    method SaveDraft(request: Request, binding: nat) returns (outcome: Outcome)
      modifies this
      ensures Written(log, outcome) == Save(old(log), request, binding)
    {
      var existing := Lookup(request.command);
      if existing.Some? {
        if existing.value.payload != request {
          return Failure(PayloadMismatch);
        }
        return Row(existing.value);
      }
      if log != [] {
        return Row(log[|log| - 1]);
      }
      var row := Revision(1, None, Saved, binding, [], request.command, request);
      log := [row];
      outcome := Row(row);
    }
  }
}
