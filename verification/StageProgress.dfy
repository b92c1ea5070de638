/** Progress of the leased model stages: what a worker achieves when everything it asks for goes well. */
module StageProgress {
  import opened Wrappers
  import opened Leases
  import opened StageDispatch

  lemma {:induction false} RunThen(s: Sys, es: seq<Event>, e: Event)
    ensures Run(s, es + [e]) == Step(Run(s, es), e)
    decreases |es|
  {
    if es != [] {
      assert (es + [e])[0] == es[0] && (es + [e])[1..] == es[1..] + [e];
      RunThen(Step(s, es[0]), es[1..], e);
    } else {
      assert es + [e] == [e] && [e][1..] == [];
    }
  }

  /** The worker stands at `pc` and its claim passes. */
  predicate Holding(s: Sys, w: nat, pc: Pc) {
    && w in s.workers && s.workers[w].pc == pc && s.workers[w].claim.Some?
    && Passes(s.stage.lease, s.workers[w].claim.value, s.now)
  }

  /** The worker's own steps, with every outside call answered well. */
  predicate GoesWell(e: Event, w: nat) {
    (e.Spawn? && e.w == w) || (e.Act? && e.w == w && e.o.ok)
  }

  /** The run goes from `s` to `t` by `es`, and only worker `w` acts in it. */
  ghost predicate Reaches(s: Sys, es: seq<Event>, t: Sys, w: nat) {
    Run(s, es) == t && forall i :: 0 <= i < |es| ==> GoesWell(es[i], w)
  }

  lemma {:induction false} Go(s: Sys, es: seq<Event>, t: Sys, w: nat) returns (fs: seq<Event>, u: Sys)
    requires Reaches(s, es, t, w)
    ensures u == Step(t, Act(w, Oracle(true, false, false, true, 0))) && Reaches(s, fs, u, w)
  {
    fs := es + [Act(w, Oracle(true, false, false, true, 0))];
    u := Step(t, Act(w, Oracle(true, false, false, true, 0)));
    RunThen(s, es, Act(w, Oracle(true, false, false, true, 0)));
  }

  /** Nobody holds the stage, and it waits for a worker. */
  predicate Claimable(s: Sys) {
    && !Busy(s.stage.lease, s.now) && (s.stage.status == Pending || s.stage.status == RetryWait)
    && (s.stage.retryAt.Some? ==> s.stage.retryAt.value <= s.now)
  }

  lemma {:induction false} Claims(s: Sys, w: nat) returns (es: seq<Event>, t: Sys)
    requires w !in s.workers && Claimable(s)
    ensures Reaches(s, es, t, w) && Holding(t, w, DispatchCommit(s.stage.attempts)) && t.workers[w].input == t.raw
    ensures t.stage == s.stage.(lease := t.stage.lease) && t.stage.lease.owner == Some(w)
    ensures t.dispatched == s.dispatched && t.called == s.called
  {
    hide Run;
    t := Step(s, Spawn(w));
    es := [] + [Spawn(w)];
    RunNothing(s);
    RunThen(s, [], Spawn(w));
    es, t := Go(s, es, t, w);
    es, t := Go(s, es, t, w);
    es, t := Go(s, es, t, w);
  }

  lemma {:induction false} RunNothing(s: Sys)
    ensures Run(s, []) == s
  {
  }

  lemma {:induction false} Calls(s: Sys, es: seq<Event>, t: Sys, w: nat, seen: nat) returns (fs: seq<Event>, u: Sys)
    requires Reaches(s, es, t, w) && Holding(t, w, DispatchCommit(seen)) && t.workers[w].input == t.raw
    ensures Reaches(s, fs, u, w) && Holding(u, w, Publish(seen + 1)) && u.workers[w].input == u.raw
    ensures u.stage.attempts == seen + 1 && u.dispatched == t.dispatched + [w] && u.called == t.called + [w]
  {
    hide Run;
    fs, u := Go(s, es, t, w);
    fs, u := Go(s, fs, u, w);
    fs, u := Go(s, fs, u, w);
  }

  /** From any stage that waits: a worker for whom everything goes well ends with the stage completed and
      the lease given back, after one more attempt and one call of the model. */
  lemma {:induction false} GoodRunCompletes(s: Sys, w: nat) returns (es: seq<Event>)
    requires w !in s.workers && Claimable(s)
    ensures forall i :: 0 <= i < |es| ==> GoesWell(es[i], w)
    ensures var t := Run(s, es);
      && t.stage.status == Completed && t.stage.lease.owner.None? && t.stage.attempts == s.stage.attempts + 1
      && t.dispatched == s.dispatched + [w] && t.called == s.called + [w]
  {
    hide Run;
    var t;
    es, t := Claims(s, w);
    es, t := Calls(s, es, t, w, s.stage.attempts);
    es, t := Go(s, es, t, w);
    es, t := Go(s, es, t, w);
  }

  /** The operator's reset brings a stage that waits for a retry or for review back to a worker, whoever
      held it, and leaves any other stage alone. */
  lemma {:induction false} ResetBringsBack(s: Sys)
    ensures var t := Step(s, ResetFailed);
      if s.stage.status == RetryWait || s.stage.status == NeedsReview
      then Claimable(t) && t.stage.attempts == 0 && t.stage.lease.epoch > s.stage.lease.epoch && t.workers == s.workers
      else t == s
  {
  }
}
