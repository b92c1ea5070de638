/** When a stage result is published: only over the raw subtitle its worker read under its claim. */
module StagePublish {
  import opened Wrappers
  import opened Leases
  import opened StageDispatch

  /** The worker has read its input. */
  predicate Informed(k: Worker) {
    k.claim.Some? && !k.pc.Claiming? && !k.pc.ReadingInput? && !k.pc.Dead?
  }

  ghost predicate ReadsInput(s: Sys, e: Event, w: nat) {
    w in s.workers && s.workers[w].pc.ReadingInput? && s.workers[w].claim.Some? && e.Act? && e.w == w
  }

  ghost predicate SameInput(s: Sys, t: Sys, w: nat)
    requires w in s.workers && w in t.workers
  {
    var k, was := t.workers[w], s.workers[w];
    k.claim == was.claim && if was.pc.ReadingInput? then k.input == s.raw else Informed(was) && k.input == was.input
  }

  lemma {:induction false} ActInputStays(s: Sys, w: nat, o: Oracle)
    requires w in s.workers && HasClaim(s.workers[w]) && (s.workers[w].pc.Claiming? ==> s.workers[w].claim.None?)
    requires w in WorkerStep(s, w, o).workers && Informed(WorkerStep(s, w, o).workers[w])
    ensures SameInput(s, WorkerStep(s, w, o), w)
  {
    hide Passes, Busy;
  }

  lemma {:induction false} OthersAct(s: Sys, x: nat, o: Oracle, w: nat)
    requires x in s.workers && HasClaim(s.workers[x]) && x != w
    ensures var t := WorkerStep(s, x, o); (w in t.workers <==> w in s.workers) && (w in s.workers ==> t.workers[w] == s.workers[w])
  {
    hide Passes, Busy;
  }

  /** A step gives a worker its input by reading it under its claim, or leaves input and claim. */
  lemma {:induction false} InputStays(s: Sys, e: Event, w: nat)
    requires w in s.workers && s.workers[w].pc.Claiming? ==> s.workers[w].claim.None?
    requires w in Step(s, e).workers && Informed(Step(s, e).workers[w])
    ensures var k := Step(s, e).workers[w];
      w in s.workers && k.claim == s.workers[w].claim &&
      if ReadsInput(s, e, w) then k.input == s.raw else Informed(s.workers[w]) && k.input == s.workers[w].input
  {
    hide WorkerStep, Passes;
    if e.Act? && e.w in s.workers && HasClaim(s.workers[e.w]) {
      if e.w == w {
        ActInputStays(s, w, e.o);
      } else {
        OthersAct(s, e.w, e.o, w);
      }
    }
  }

  lemma {:induction false} RunSnoc(s: Sys, es: seq<Event>)
    requires es != []
    ensures Run(s, es) == Step(Run(s, es[..|es| - 1]), es[|es| - 1])
    decreases |es|
  {
    var init, e := es[..|es| - 1], es[|es| - 1];
    if |es| == 1 {
      assert es[1..] == [] && init == [];
    } else {
      RunSnoc(Step(s, es[0]), es[1..]);
      assert es[1..][..|es[1..]| - 1] == init[1..];
    }
  }

  /** Step `n` of the run is the worker's read of its input, under the claim it has at the end. */
  ghost predicate ReadAt(s: Sys, es: seq<Event>, n: nat, w: nat, k: Worker) {
    && n < |es| && ReadsInput(Run(s, es[..n]), es[n], w)
    && Run(s, es[..n]).workers[w].claim == k.claim && Run(s, es[..n]).raw == k.input
  }

  lemma {:induction false} InputWasRead(s: Sys, es: seq<Event>, w: nat) returns (n: nat)
    requires Initial(s) && w in Run(s, es).workers && Informed(Run(s, es).workers[w])
    ensures ReadAt(s, es, n, w, Run(s, es).workers[w])
    decreases |es|
  {
    var init, e := es[..|es| - 1], es[|es| - 1];
    RunSnoc(s, es);
    RunKeeps(s, init);
    InputStays(Run(s, init), e, w);
    if ReadsInput(Run(s, init), e, w) {
      n := |es| - 1;
    } else {
      n := InputWasRead(s, init, w);
      assert es[..n] == init[..n];
    }
  }

  /** In every run, whenever a worker's step completes the stage: its claim passes, it has called the
      model, and the raw subtitle of this moment is the one it read under the same claim. */
  lemma {:induction false} CompletedOverItsInput(s: Sys, es: seq<Event>, w: nat, o: Oracle) returns (n: nat)
    requires Initial(s)
    requires Run(s, es).stage.status != Completed && Step(Run(s, es), Act(w, o)).stage.status == Completed
    ensures var u := Run(s, es);
      && w in u.workers && u.workers[w].claim.Some? && Passes(u.stage.lease, u.workers[w].claim.value, u.now)
      && w in u.called && ReadAt(s, es, n, w, u.workers[w]) && Run(s, es[..n]).raw == u.raw
  {
    RunKeeps(s, es);
    var u := Run(s, es);
    assert WorkerOk(u, w, u.workers[w]);
    OnlyPublication(u, w, o);
    PublishersCalled(s, es, w);
    n := InputWasRead(s, es, w);
  }

  lemma {:induction false} OnlyPublication(s: Sys, w: nat, o: Oracle)
    requires w in s.workers && HasClaim(s.workers[w])
    requires s.stage.status != Completed && WorkerStep(s, w, o).stage.status == Completed
    ensures s.workers[w].pc.Publish? && s.workers[w].claim.Some? && s.raw == s.workers[w].input
    ensures Passes(s.stage.lease, s.workers[w].claim.value, s.now)
  {
  }

  /** Whoever is about to publish has called the model. */
  lemma {:induction false} PublishersCalled(s: Sys, es: seq<Event>, w: nat)
    requires Initial(s) && w in Run(s, es).workers && Run(s, es).workers[w].pc.Publish?
    ensures w in Run(s, es).called
    decreases |es|
  {
    var init, e := es[..|es| - 1], es[|es| - 1];
    RunSnoc(s, es);
    if w in Run(s, init).workers && Run(s, init).workers[w].pc.Publish? {
      PublishersCalled(s, init, w);
    }
    CallsStay(Run(s, init), e, w);
  }

  lemma {:induction false} CallsStay(s: Sys, e: Event, w: nat)
    requires w in Step(s, e).workers && Step(s, e).workers[w].pc.Publish?
    requires w in s.workers && s.workers[w].pc.Publish? ==> w in s.called
    ensures w in Step(s, e).called
  {
    hide WorkerStep, Passes;
    if e.Act? && e.w in s.workers && HasClaim(s.workers[e.w]) {
      CalledGrows(s, e.w, e.o);
      if e.w == w {
        ActCalls(s, w, e.o);
      } else {
        OthersAct(s, e.w, e.o, w);
      }
    }
  }

  lemma {:induction false} CalledGrows(s: Sys, x: nat, o: Oracle)
    requires x in s.workers && HasClaim(s.workers[x])
    ensures s.called <= WorkerStep(s, x, o).called
  {
    hide Passes, Busy;
  }

  lemma {:induction false} ActCalls(s: Sys, w: nat, o: Oracle)
    requires w in s.workers && HasClaim(s.workers[w]) && w in WorkerStep(s, w, o).workers && WorkerStep(s, w, o).workers[w].pc.Publish?
    ensures w in WorkerStep(s, w, o).called
  {
    hide Passes, Busy;
  }

  /** And it is always completed then; over another input nothing is written. */
  lemma {:induction false} GoodResultIsPublished(s: Sys, w: nat, o: Oracle)
    requires w in s.workers && s.workers[w].pc.Publish? && s.workers[w].claim.Some?
    ensures Step(s, Act(w, o)).stage ==
            if Passes(s.stage.lease, s.workers[w].claim.value, s.now) && s.raw == s.workers[w].input
            then s.stage.(status := Completed) else s.stage
  {
  }

  /** What a failed attempt leads to: another try later while fewer than three were made and the
      error allows one, and review otherwise. */
  lemma {:induction false} FailureIsRecorded(s: Sys, w: nat, o: Oracle)
    requires w in s.workers && s.workers[w].pc.FailWrite? && s.workers[w].claim.Some?
    requires Passes(s.stage.lease, s.workers[w].claim.value, s.now)
    ensures var stage, pc := Step(s, Act(w, o)).stage, s.workers[w].pc;
      && (stage.status == RetryWait <==> pc.retryable && pc.attempt < 3) && (stage.status == RetryWait || stage.status == NeedsReview)
      && (stage.retryAt.Some? <==> stage.status == RetryWait) && stage.attempts == s.stage.attempts
  {
  }
}
