/** The candidate and exception files a harvest writes: `_materialize` of
    `src/shiliu/p3_metadata_harvest.py`. */
module HarvestFiles {
  import opened Wrappers
  import opened Orders
  import opened Harvest
  import opened HarvestSafety

  /** The newest terminal event of a target. */
  function FinalOf(log: seq<Event>, v: nat): Option<Event> {
    if log == [] then None
    else
      var e := log[|log| - 1];
      if Terminal(e) && e.video == v then Some(e) else FinalOf(log[..|log| - 1], v)
  }

  /** The terminal events of the first `n` targets, in plan order. */
  function Finals(log: seq<Event>, plan: seq<nat>, n: nat): seq<Event>
    requires n <= |plan|
  {
    if n == 0 then []
    else
      var f := FinalOf(log, plan[n - 1]);
      Finals(log, plan, n - 1) + (if f.Some? then [f.value] else [])
  }

  function Candidates(rows: seq<Event>): seq<Event> {
    if rows == [] then []
    else Candidates(rows[..|rows| - 1]) + (if rows[|rows| - 1].Candidate? then [rows[|rows| - 1]] else [])
  }

  function Exceptions(rows: seq<Event>): seq<Event> {
    if rows == [] then []
    else Exceptions(rows[..|rows| - 1]) + (if rows[|rows| - 1].Exception? then [rows[|rows| - 1]] else [])
  }

  /** The place of a target in the plan; a target outside it comes last. */
  function PlaceOf(plan: seq<nat>, v: nat): (i: nat)
    ensures i <= |plan| && (i < |plan| ==> plan[i] == v) && (i == |plan| ==> v !in plan)
  {
    if plan == [] then 0 else if plan[0] == v then 0 else 1 + PlaceOf(plan[1..], v)
  }

  function ByPlan(plan: seq<nat>): (Event, Event) -> bool {
    (a: Event, b: Event) => Terminal(a) && Terminal(b) && PlaceOf(plan, a.video) < PlaceOf(plan, b.video)
  }

  /** All terminal events are about targets of the plan. */
  ghost predicate OnPlan(plan: seq<nat>, log: seq<Event>) {
    forall i :: 0 <= i < |log| && Terminal(log[i]) ==> log[i].video in plan
  }

  /** The dictionary of the newest terminal events, in the order their keys came. */
  ghost predicate TableOf(log: seq<Event>, table: map<nat, Event>, keys: seq<nat>) {
    && (forall v :: v in table <==> FinalOf(log, v).Some?) && (forall v :: v in table ==> FinalOf(log, v) == Some(table[v]))
    && Distinct(keys) && (forall v :: v in table <==> v in keys)
  }

  lemma {:induction false} FinalIs(log: seq<Event>, v: nat)
    ensures var f := FinalOf(log, v); f.Some? ==> Terminal(f.value) && f.value.video == v && f.value in log
  {
    if log != [] {
      FinalIs(log[..|log| - 1], v);
    }
  }

  /** `_materialize`. */
  method Materialize(log: seq<Event>, plan: seq<nat>) returns (candidates: seq<Event>, exceptions: seq<Event>)
    requires ValidPlan(plan) && OnPlan(plan, log)
    ensures candidates == Candidates(Finals(log, plan, |plan|)) && exceptions == Exceptions(Finals(log, plan, |plan|))
  {
    var table: map<nat, Event> := map[];
    var keys: seq<nat> := [];
    for i := 0 to |log|
      invariant TableOf(log[..i], table, keys)
    {
      var e := log[i];
      assert log[..i + 1][..i] == log[..i];
      if Terminal(e) {
        if e.video !in table {
          keys := keys + [e.video];
        }
        table := table[e.video := e];
      }
    }
    assert log[..|log|] == log;
    var values := seq(|keys|, i requires 0 <= i < |keys| && keys[i] in table => table[keys[i]]);
    var rows := SortBy(ByPlan(plan), values);
    RowsAreFinals(log, plan, table, keys, values);
    candidates, exceptions := [], [];
    for i := 0 to |rows|
      invariant candidates == Candidates(rows[..i]) && exceptions == Exceptions(rows[..i])
    {
      assert rows[..i + 1][..i] == rows[..i];
      if rows[i].Candidate? {
        candidates := candidates + [rows[i]];
      }
      if rows[i].Exception? {
        exceptions := exceptions + [rows[i]];
      }
    }
    assert rows[..|rows|] == rows;
  }

  lemma {:induction false} PlaceOfPlan(plan: seq<nat>, i: nat)
    requires i < |plan| && forall j, k :: 0 <= j < k < |plan| ==> plan[j] != plan[k]
    ensures PlaceOf(plan, plan[i]) == i
  {
    if i > 0 {
      assert plan[0] != plan[i];
      PlaceOfPlan(plan[1..], i - 1);
    }
  }

  /** The finals of the first `n` targets: sorted, and exactly those there are. */
  lemma {:induction false} FinalsSorted(log: seq<Event>, plan: seq<nat>, n: nat)
    requires ValidPlan(plan) && n <= |plan|
    ensures Sorted(ByPlan(plan), Finals(log, plan, n))
    ensures forall e :: e in Finals(log, plan, n) <==> exists k :: 0 <= k < n && FinalOf(log, plan[k]) == Some(e)
  {
    if n > 0 {
      FinalsSorted(log, plan, n - 1);
      var init, f := Finals(log, plan, n - 1), FinalOf(log, plan[n - 1]);
      if f.Some? {
        FinalIs(log, plan[n - 1]);
        PlaceOfPlan(plan, n - 1);
        forall i | 0 <= i < |init| ensures ByPlan(plan)(init[i], f.value) {
          assert init[i] in init;
          var k :| 0 <= k < n - 1 && FinalOf(log, plan[k]) == Some(init[i]);
          FinalIs(log, plan[k]);
          PlaceOfPlan(plan, k);
        }
      }
    }
  }

  lemma {:induction false} ByPlanIsStrict(log: seq<Event>, plan: seq<nat>, dom: set<Event>)
    requires OnPlan(plan, log) && forall e :: e in dom ==> e in log && Terminal(e) && FinalOf(log, e.video) == Some(e)
    ensures StrictOn(ByPlan(plan), dom)
  {
    forall a, b | a in dom && b in dom && a != b ensures ByPlan(plan)(a, b) || ByPlan(plan)(b, a) {
      assert a.video in plan && b.video in plan;
      assert plan[PlaceOf(plan, a.video)] == a.video && plan[PlaceOf(plan, b.video)] == b.video;
    }
  }

  lemma {:induction false} RowsAreFinals(log: seq<Event>, plan: seq<nat>, table: map<nat, Event>, keys: seq<nat>, values: seq<Event>)
    requires ValidPlan(plan) && OnPlan(plan, log) && TableOf(log, table, keys) && |values| == |keys|
    requires forall i :: 0 <= i < |keys| ==> values[i] == table[keys[i]]
    ensures SortBy(ByPlan(plan), values) == Finals(log, plan, |plan|)
  {
    var dom, finals := Elements(values), Finals(log, plan, |plan|);
    ValuesAreFinals(log, plan, table, keys, values);
    ByPlanIsStrict(log, plan, dom);
    SortSorts(ByPlan(plan), values, dom);
    FinalsSorted(log, plan, |plan|);
    forall e ensures e in finals <==> e in values {
      if e in finals {
        var k :| 0 <= k < |plan| && FinalOf(log, plan[k]) == Some(e);
        var i :| 0 <= i < |keys| && keys[i] == plan[k];
        assert values[i] == e;
      }
      if e in values {
        assert e.video in plan;
        var k :| 0 <= k < |plan| && plan[k] == e.video;
        assert FinalOf(log, plan[k]) == Some(e);
      }
    }
    SortedUnique(ByPlan(plan), SortBy(ByPlan(plan), values), finals, dom);
  }

  lemma {:induction false} ValuesAreFinals(log: seq<Event>, plan: seq<nat>, table: map<nat, Event>, keys: seq<nat>, values: seq<Event>)
    requires TableOf(log, table, keys) && |values| == |keys| && OnPlan(plan, log)
    requires forall i :: 0 <= i < |keys| ==> values[i] == table[keys[i]]
    ensures Distinct(values) && forall e :: e in values ==> e in log && Terminal(e) && FinalOf(log, e.video) == Some(e) && e.video in plan
  {
    forall i | 0 <= i < |values| ensures Terminal(values[i]) && values[i].video == keys[i] && values[i] in log {
      FinalIs(log, keys[i]);
    }
  }

  // ---- what the files hold ---------------------------------------------------------------------

  lemma {:induction false} FinalIsLast(plan: seq<nat>, max: nat, log: seq<Event>, v: nat)
    requires Legal(plan, max, log)
    ensures FinalOf(log, v).Some? <==> Ended(log, v)
    ensures Ended(log, v) ==> FinalOf(log, v) == Replay(log, v).last
  {
    if log != [] {
      var init, e := log[..|log| - 1], log[|log| - 1];
      assert log == init + [e];
      FinalIsLast(plan, max, init, v);
      ReplaySnoc(init, e, v);
      LegalSnoc(plan, max, init, e);
    }
  }

  lemma {:induction false} LegalIsOnPlan(plan: seq<nat>, max: nat, log: seq<Event>)
    requires Legal(plan, max, log)
    ensures OnPlan(plan, log)
  {
    if log != [] {
      var init := log[..|log| - 1];
      LegalIsOnPlan(plan, max, init);
      assert forall i :: 0 <= i < |init| ==> log[i] == init[i];
    }
  }

  /** How many targets of the plan are ended, when the ended ones come first. */
  lemma {:induction false} EndedPrefix(plan: seq<nat>, max: nat, log: seq<Event>) returns (k: nat)
    requires ValidPlan(plan) && Legal(plan, max, log)
    ensures k <= |plan| && forall j :: 0 <= j < |plan| ==> (Ended(log, plan[j]) <==> j < k)
  {
    k := 0;
    while k < |plan| && Ended(log, plan[k])
      invariant k <= |plan| && forall j :: 0 <= j < k ==> Ended(log, plan[j])
    {
      k := k + 1;
    }
    if k < |plan| {
      assert OpenAt(plan, log, k);
      forall j | k < j < |plan| ensures !Ended(log, plan[j]) {
        LaterTargetsAreFresh(plan, max, log, k, j);
      }
    }
  }

  lemma {:induction false} FinalsOfPrefix(plan: seq<nat>, max: nat, log: seq<Event>, k: nat, n: nat)
    requires ValidPlan(plan) && Legal(plan, max, log) && k <= |plan| && n <= |plan|
    requires forall j :: 0 <= j < |plan| ==> (Ended(log, plan[j]) <==> j < k)
    ensures var f := Finals(log, plan, n);
      |f| == (if n < k then n else k) && forall j :: 0 <= j < |f| ==> Terminal(f[j]) && f[j].video == plan[j]
  {
    if n > 0 {
      FinalsOfPrefix(plan, max, log, k, n - 1);
      FinalIsLast(plan, max, log, plan[n - 1]);
      FinalIs(log, plan[n - 1]);
    }
  }

  lemma {:induction false} SplitCounts(rows: seq<Event>)
    requires forall i :: 0 <= i < |rows| ==> Terminal(rows[i])
    ensures |Candidates(rows)| + |Exceptions(rows)| == |rows|
  {
    if rows != [] {
      SplitCounts(rows[..|rows| - 1]);
    }
  }

  /** The candidate rows go to the one file, the exceptions to the other, each in plan order. */
  lemma {:induction false} SplitKinds(rows: seq<Event>, less: (Event, Event) -> bool)
    requires Sorted(less, rows)
    ensures forall e :: e in Candidates(rows) <==> e in rows && e.Candidate?
    ensures forall e :: e in Exceptions(rows) <==> e in rows && e.Exception?
    ensures Sorted(less, Candidates(rows)) && Sorted(less, Exceptions(rows))
  {
    if rows != [] {
      var init, last := rows[..|rows| - 1], rows[|rows| - 1];
      assert rows == init + [last];
      SplitKinds(init, less);
      forall e | e in init ensures less(e, last) {
        var i :| 0 <= i < |init| && init[i] == e;
        assert less(rows[i], rows[|rows| - 1]);
      }
    }
  }

  /** After any runs and cuts the rows behind the two files are one for each ended target, in plan
      order, and the ended targets are a prefix of the plan; the one file holds the candidates among
      them and the other the exceptions, so together they count exactly the targets done, and the
      next request is for the target after them. */
  lemma {:induction false} FilesCoverPrefix(plan: seq<nat>, max: nat, runs: seq<RunInput>) returns (k: nat)
    requires ValidPlan(plan) && SameLimit(runs, max)
    ensures var log := Runs(plan, [], runs);
      var rows := Finals(log, plan, |plan|);
      && k <= |plan| && |rows| == k && (forall j :: 0 <= j < k ==> rows[j].Candidate? || rows[j].Exception?)
      && (forall j :: 0 <= j < k ==> rows[j].video == plan[j])
      && (forall j :: 0 <= j < |plan| ==> (Ended(log, plan[j]) <==> j < k))
      && |Candidates(rows)| + |Exceptions(rows)| == k && OnPlan(plan, log)
      && (forall e :: e in Candidates(rows) <==> e in rows && e.Candidate?)
      && (forall e :: e in Exceptions(rows) <==> e in rows && e.Exception?)
      && Sorted(ByPlan(plan), Candidates(rows)) && Sorted(ByPlan(plan), Exceptions(rows))
  {
    var log := Runs(plan, [], runs);
    RunsLegal(plan, max, [], runs);
    k := EndedPrefix(plan, max, log);
    FinalsOfPrefix(plan, max, log, k, |plan|);
    SplitCounts(Finals(log, plan, |plan|));
    FinalsSorted(log, plan, |plan|);
    SplitKinds(Finals(log, plan, |plan|), ByPlan(plan));
    LegalIsOnPlan(plan, max, log);
  }
}
