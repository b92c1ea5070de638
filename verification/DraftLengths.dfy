/** What the length of command ids decides: suffixed ids are cut at 160 characters. */
module DraftLengths {
  import opened Wrappers
  import opened DraftLog
  import opened DraftSafety

  // ---- ids of 160 characters: the final row ----------------------------------------------------

  /** One draft is saved, prepared to the end, and the same preparation is asked for again. */
  function Script(command: string, binding: nat, candidates: seq<string>): seq<Event> {
    var request := CommandRequest(command, 1);
    [DoSave(0, SaveRequest("s", "x"), binding), Call(0, Prepare, request), Replay(0), Expect(0), Decide(0, true),
     Finish(0, Some(candidates)), Call(1, Prepare, request), Replay(1)]
  }

  /** The states the script passes through when the started row takes the request's own id. */
  function Stage(command: string, binding: nat, n: nat): Sys {
    var request := CommandRequest(command, 1);
    var saved := Revision(1, None, Saved, binding, [], "s", SaveRequest("s", "x"));
    var started := Revision(2, Some(1), Materializing, binding, [], command, request);
    var log := if n == 0 then [] else if n < 5 then [saved] else [saved, started];
    var first := if n == 2 then Asked(Prepare, request) else if n == 3 then Checked(Prepare, request)
                 else if n == 4 then Got(Prepare, request, saved) else if n == 5 then Working(request, started)
                 else if n == 1 then Done(Row(saved)) else Done(Row(started));
    if n == 0 then Sys([], map[])
    else if n < 7 then Sys(log, map[0 := first])
    else Sys(log, map[0 := first, 1 := if n == 7 then Asked(Prepare, request) else Done(Row(started))])
  }

  lemma {:induction false} StageStep(command: string, binding: nat, candidates: seq<string>, n: nat)
    requires |command| == 160 && candidates != [] && n < 8
    ensures Step(Stage(command, binding, n), Script(command, binding, candidates)[n]) == Stage(command, binding, n + 1)
  {
    var sys := Stage(command, binding, n);
    assert Suffixed(command, STARTED) == command;
    assert command != "s";
    assert 1 <= n < 5 ==> Find(sys.log, command) == None by {
      assert 1 <= n < 5 ==> sys.log[1..] == [];
    }
    assert n >= 5 ==> Find(sys.log, command) == Some(sys.log[1]) by {
      assert n >= 5 ==> sys.log[1..] == [sys.log[1]];
    }
  }

  lemma {:induction false} ScriptReaches(command: string, binding: nat, candidates: seq<string>, n: nat)
    requires |command| == 160 && candidates != [] && n <= 8
    ensures Run(Script(command, binding, candidates)[..n]) == Stage(command, binding, n)
  {
    var events := Script(command, binding, candidates);
    if n > 0 {
      ScriptReaches(command, binding, candidates, n - 1);
      StageStep(command, binding, candidates, n - 1);
      assert events[..n][..n - 1] == events[..n - 1];
    }
  }

  /** With an id of the full 160 characters the started row takes the request's own id, so the
      finished work is never recorded, and asking again returns the started row. */
  lemma {:induction false} LongCommandSticks(command: string, binding: nat, candidates: seq<string>)
    requires |command| == 160 && candidates != []
    ensures var sys := Run(Script(command, binding, candidates));
      && |sys.log| == 2 && sys.log[1].status == Materializing
      && PcOf(sys, 0) == Done(Row(sys.log[1])) && PcOf(sys, 1) == Done(Row(sys.log[1]))
  {
    ScriptReaches(command, binding, candidates, 8);
    assert Script(command, binding, candidates)[..8] == Script(command, binding, candidates);
  }

  /** In every run, a request asked again gets its final row. */
  ghost predicate RepliesFinal(command: string) {
    forall events: seq<Event>, r: Revision, c: nat :: RepliesWith(events, r, c) && r.command == command ==> Final(r)
  }

  /** Caller `c` is about to be answered with the stored row `r` of its own request. */
  ghost predicate RepliesWith(events: seq<Event>, r: Revision, c: nat) {
    var pc := PcOf(Run(events), c);
    r in Run(events).log && pc.Asked? && pc.request == r.payload && r.command == r.payload.command
  }

  predicate Final(r: Revision) {
    r.status != Materializing && r.status != NeedsRevalidation
  }

  /** Asking again gives the request's final row in every run, if and only if the id does
      not have the full 160 characters. */
  lemma {:induction false} RepliesFinalIff(command: string)
    ensures RepliesFinal(command) <==> |command| != 160
  {
    if |command| == 160 {
      var events := Script(command, 0, ["k"])[..7];
      ScriptReaches(command, 0, ["k"], 7);
      var r := Stage(command, 0, 7).log[1];
      assert RepliesWith(events, r, 1) && !Final(r);
    } else {
      forall events: seq<Event>, r: Revision, c: nat | RepliesWith(events, r, c) && r.command == command ensures Final(r) {
        assert events[..|events|] == events;
        ReplayReturnsStoredRow(events, |events|, r, c);
      }
    }
  }

  // ---- ids of 159 characters: the order of statuses --------------------------------------------

  /** The ids callers asked with. */
  function Commands(events: seq<Event>): set<string> {
    set e | e in events && e.Call? :: e.request.command
  }

  /** Every request in the table or in a caller's hands is one that was asked for. */
  ghost predicate Known(sys: Sys, commands: set<string>) {
    && (forall r :: r in sys.log ==> KnownRequest(r.payload, commands))
    && (forall c :: c in sys.callers ==> KnownPc(sys.callers[c], commands))
  }

  predicate KnownRequest(request: Request, commands: set<string>) {
    request.SaveRequest? || request.command in commands
  }

  predicate KnownPc(pc: Pc, commands: set<string>) {
    !(pc.Idle? || pc.Done?) ==> KnownRequest(pc.request, commands)
  }

  lemma {:induction false} AppendKnown(log: seq<Revision>, current: Revision, status: Status, command: string, payload: Request,
                                       candidates: seq<string>, commands: set<string>)
    requires (forall r :: r in log ==> KnownRequest(r.payload, commands)) && KnownRequest(payload, commands)
    ensures forall r :: r in Append(log, current, status, command, payload, candidates).log ==> KnownRequest(r.payload, commands)
  {
  }

  lemma {:induction false} StepKnown(sys: Sys, e: Event, commands: set<string>)
    requires Known(sys, commands) && (e.Call? ==> e.request.command in commands)
    ensures Known(Step(sys, e), commands)
  {
    var pc := PcOf(sys, e.c);
    assert KnownPc(pc, commands);
  }

  lemma {:induction false} RunKnown(events: seq<Event>)
    ensures Known(Run(events), Commands(events))
  {
    if events != [] {
      var init, e := events[..|events| - 1], events[|events| - 1];
      RunKnown(init);
      assert Commands(init) <= Commands(events);
      StepKnown(Run(init), e, Commands(events));
    }
  }

  /** Statuses follow one another as they should, from each row to the next. */
  ghost predicate InOrder(log: seq<Revision>) {
    forall i :: 0 <= i < |log| - 1 ==> Follows(log[i].status, log[i + 1].status)
  }

  /** Every run whose callers use ids of these lengths keeps the order. */
  ghost predicate OrderKept(lengths: set<nat>) {
    forall events: seq<Event> :: (forall command :: command in Commands(events) ==> |command| in lengths) ==> InOrder(Run(events).log)
  }

  /** Both suffixed ids of an accepted id are cut to the same text, which is not the id, at one
      length only. */
  lemma {:induction false} SlipsAt(command: string)
    requires |command| <= 160
    ensures Suffixed(command, STARTED) == Suffixed(command, BLOCKED) != command <==> |command| == 159
  {
    var s, b := Suffixed(command, STARTED), Suffixed(command, BLOCKED);
    if |command| <= 158 {
      assert s[|command| + 1] == 's' && b[|command| + 1] == 'b';
    } else if |command| == 159 {
      assert s == command + ":" == b;
    } else {
      assert s == command;
    }
  }

  lemma {:induction false} OrderHolds(events: seq<Event>)
    requires forall command :: command in Commands(events) ==> |command| <= 160 && |command| != 159
    ensures InOrder(Run(events).log)
  {
    RunKeeps(events);
    RunKnown(events);
    var log := Run(events).log;
    forall i | 0 <= i < |log| - 1 ensures Follows(log[i].status, log[i + 1].status) {
      var b := log[i + 1];
      assert Links(log[i], b) && b in log && Labelled(b) && KnownRequest(b.payload, Commands(events));
      if b.payload.command in Commands(events) {
        SlipsAt(b.payload.command);
      }
    }
  }

  /** Two callers ask for one preparation; the second finds the source changed, the first does not
      and takes the second's row for its own. */
  function SlipScript(command: string): seq<Event> {
    var request := CommandRequest(command, 1);
    [DoSave(0, SaveRequest("s", "x"), 0), Call(0, Prepare, request), Replay(0), Expect(0),
     Call(1, Prepare, request), Replay(1), Expect(1), Decide(1, false), Decide(0, true), Finish(0, Some(["k"]))]
  }

  function SlipLog(command: string, n: nat): seq<Revision> {
    var request := CommandRequest(command, 1);
    var saved := Revision(1, None, Saved, 0, [], "s", SaveRequest("s", "x"));
    var blocked := Revision(2, Some(1), NeedsRevalidation, 0, [], command + ":", request);
    var ready := Revision(3, Some(2), PromotionReady, 0, ["k"], command, request);
    if n == 0 then [] else if n < 8 then [saved] else if n < 10 then [saved, blocked] else [saved, blocked, ready]
  }

  function SlipCaller(command: string, c: nat, n: nat): Pc
    requires n > 0
  {
    var request := CommandRequest(command, 1);
    var saved := SlipLog(command, 1)[0];
    if n == 1 then Done(Row(saved))
    else if n == 2 then Asked(Prepare, request)
    else if n == 3 then Checked(Prepare, request)
    else if c == 1 then if n == 4 then Got(Prepare, request, saved) else Done(Failure(Raised))
    else if n < 9 then Got(Prepare, request, saved)
    else if n == 9 then Working(request, SlipLog(command, 9)[1])
    else Done(Row(SlipLog(command, 10)[2]))
  }

  /** The states that script passes through; the second caller is three steps behind. */
  function SlipStage(command: string, n: nat): Sys {
    if n == 0 then Sys([], map[])
    else if n < 5 then Sys(SlipLog(command, n), map[0 := SlipCaller(command, 0, n)])
    else Sys(SlipLog(command, n), map[0 := SlipCaller(command, 0, n), 1 := SlipCaller(command, 1, n - 3)])
  }

  lemma {:induction false} FindInOne(log: seq<Revision>, command: string)
    requires |log| == 1 && log[0].command != command
    ensures Find(log, command) == None
  {
    assert log[1..] == [];
  }

  lemma {:induction false} FindInTwo(log: seq<Revision>, command: string)
    requires |log| == 2 && log[0].command != command
    ensures Find(log, command) == if log[1].command == command then Some(log[1]) else None
  {
    var rest := log[1..];
    assert rest[0] == log[1] && rest[1..] == [];
    assert Find(rest, command) == if log[1].command == command then Some(log[1]) else Find(rest[1..], command);
  }

  lemma {:induction false} SlipStep(command: string, n: nat)
    requires |command| == 159 && n < 10
    ensures Step(SlipStage(command, n), SlipScript(command)[n]) == SlipStage(command, n + 1)
  {
    if n == 7 {
      SlipBlocks(command);
    } else if n >= 8 {
      SlipEnds(command, n);
    } else if n > 0 {
      hide Suffixed, Find;
      FindInOne(SlipLog(command, n), command);
    }
  }

  lemma {:induction false} SlipIds(command: string)
    requires |command| == 159
    ensures Suffixed(command, STARTED) == command + ":" == Suffixed(command, BLOCKED)
    ensures command + ":" != command && "s" != command && "s" != command + ":"
  {
    assert |command + ":"| == 160 && |"s"| == 1;
  }

  /** The second caller finds the source changed. */
  lemma {:induction false} SlipBlocks(command: string)
    requires |command| == 159
    ensures Step(SlipStage(command, 7), SlipScript(command)[7]) == SlipStage(command, 8)
  {
    hide Suffixed, Find;
    SlipIds(command);
    FindInOne(SlipLog(command, 7), command + ":");
  }

  /** The first caller takes that row for its own, and finishes. */
  lemma {:induction false} SlipEnds(command: string, n: nat)
    requires |command| == 159 && 8 <= n < 10
    ensures Step(SlipStage(command, n), SlipScript(command)[n]) == SlipStage(command, n + 1)
  {
    hide Suffixed, Find;
    SlipIds(command);
    FindInTwo(SlipLog(command, n), command);
    FindInTwo(SlipLog(command, n), command + ":");
  }

  lemma {:induction false} SlipReaches(command: string, n: nat)
    requires |command| == 159 && n <= 10
    ensures Run(SlipScript(command)[..n]) == SlipStage(command, n)
  {
    var events := SlipScript(command);
    if n > 0 {
      SlipReaches(command, n - 1);
      SlipStep(command, n - 1);
      assert events[..n][..n - 1] == events[..n - 1];
    }
  }

  /** With an id of 159 characters candidates can become ready straight after a blocked row, with
      no row that says work started. */
  lemma {:induction false} ReadyWithoutStart(command: string)
    requires |command| == 159
    ensures var log := Run(SlipScript(command)).log;
      |log| == 3 && log[1].status == NeedsRevalidation && log[2].status == PromotionReady
    ensures Commands(SlipScript(command)) == {command}
  {
    hide Step;
    SlipReaches(command, 10);
    var events := SlipScript(command);
    assert events[..10] == events;
    assert events[1].Call? && events[1].request.command == command;
  }

  /** For the ids the service accepts: the order of statuses is kept in every run, if and only if
      no id has 159 characters. */
  lemma {:induction false} OrderKeptIff(lengths: set<nat>)
    requires forall n :: n in lengths ==> n <= 160
    ensures OrderKept(lengths) <==> 159 !in lengths
  {
    if 159 in lengths {
      var command := seq(159, _ => 'x');
      ReadyWithoutStart(command);
      assert !InOrder(Run(SlipScript(command)).log) by {
        var log := Run(SlipScript(command)).log;
        assert !Follows(log[1].status, log[1 + 1].status);
      }
    } else {
      forall events: seq<Event> | forall command :: command in Commands(events) ==> |command| in lengths
        ensures InOrder(Run(events).log)
      {
        OrderHolds(events);
      }
    }
  }
}
