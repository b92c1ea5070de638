/** What packing guarantees for well-formed evidence. */
module PackingSafety {
  import opened Wrappers
  import opened Evidence
  import opened Packing

  /** All segments the input holds for one lineage. */
  ghost function Pool(all: seq<Span>, l: Lineage): set<Segment> {
    set i, j | 0 <= i < |all| && 0 <= j < |all[i].segments| && all[i].lineage == l :: all[i].segments[j]
  }

  /** A contiguous run of one lineage of the input, with the quote and the citation it must have. */
  ghost predicate Good(all: seq<Span>, s: Span) {
    && Contiguous(s.segments) && Within(s.segments, Pool(all, s.lineage))
    && s.quote == Quote(s.segments) && s.citation == CitationOf(s.lineage, s.segments) && s.linkable
  }

  ghost predicate WellFormed(all: seq<Span>) {
    && (forall l :: Coherent(Pool(all, l)))
    && (forall i :: 0 <= i < |all| ==> Good(all, all[i]))
  }

  function SumQuotes(spans: seq<Span>): nat {
    if spans == [] then 0 else SumQuotes(spans[..|spans| - 1]) + |spans[|spans| - 1].quote|
  }

  /** Everything span `s` carries is in `t`. */
  ghost predicate Carries(t: Span, s: Span) {
    && t.lineage == s.lineage
    && (forall x :: x in s.segments ==> x in t.segments)
    && (forall x :: x in s.provenance ==> x in t.provenance)
    && (forall x :: x in s.parents ==> x in t.parents)
  }

  ghost predicate Covered(selected: seq<Span>, s: Span) {
    exists i :: 0 <= i < |selected| && Carries(selected[i], s)
  }

  /** The budgets, the total and the counters of a running pack of spans that satisfy `good`. */
  ghost predicate Budgets(good: Span -> bool, p: Pack, lim: Limits) {
    && (forall i :: 0 <= i < |p.selected| ==> good(p.selected[i]) && |p.selected[i].quote| <= lim.perSpan)
    && p.total == SumQuotes(p.selected) && p.total <= lim.total && |p.selected| <= lim.maxSpans
    && (!p.truncated ==> p.dropped == 0)
  }

  /** Selected spans only ever gain content. */
  ghost predicate Grows(old_: seq<Span>, new_: seq<Span>) {
    |old_| <= |new_| && forall i :: 0 <= i < |old_| ==> Carries(new_[i], old_[i])
  }

  lemma {:induction false} SumUpdate(spans: seq<Span>, i: nat, c: Span)
    requires i < |spans|
    ensures SumQuotes(spans[i := c]) == SumQuotes(spans) - |spans[i].quote| + |c.quote|
    decreases |spans|
  {
    var n := |spans| - 1;
    if i == n {
      assert spans[i := c][..n] == spans[..n];
    } else {
      SumUpdate(spans[..n], i, c);
      assert spans[i := c][..n] == spans[..n][i := c];
    }
  }

  /** A list that keeps all of two lists' values is empty only when both are. */
  lemma {:induction false} UniqueOfBoth<T>(l: seq<T>, r: seq<T>)
    ensures forall x :: x in Unique(l + r) <==> x in l || x in r
    ensures Unique(l + r) == [] ==> l == [] && r == []
  {
    UniqueKeeps(l + r);
    forall x ensures x in l + r <==> x in l || x in r {
    }
    assert l != [] ==> l[0] in Unique(l + r);
    assert r != [] ==> r[0] in Unique(l + r);
  }

  /** What `_merge_spans` builds when the citation check passes. */
  lemma {:induction false} MergeBuilds(l: Span, r: Span)
    requires CitationError(MergedSegments(l.segments, r.segments)) == None && l.linkable
    ensures Merge(l, r).Built?
    ensures var m, segs := Merge(l, r).span, MergedSegments(l.segments, r.segments);
      && m.lineage == l.lineage && m.linkable && m.segments == segs && m.quote == Quote(segs) && m.citation == CitationOf(l.lineage, segs)
      && (forall x :: x in l.provenance || x in r.provenance ==> x in m.provenance)
      && (forall x :: x in l.parents || x in r.parents ==> x in m.parents)
  {
    UniqueOfBoth(l.provenance, r.provenance);
    UniqueOfBoth(l.parents, r.parents);
  }

  /** Merging two touching good spans of one lineage is never refused, and the result is a good
      span that carries both. */
  lemma {:induction false} MergeIsGood(all: seq<Span>, l: Span, r: Span)
    requires Coherent(Pool(all, l.lineage)) && Good(all, l) && Good(all, r) && l.lineage == r.lineage
    requires RelationOf(l.segments, r.segments) != Separate
    ensures Merge(l, r).Built? && Good(all, Merge(l, r).span)
    ensures Carries(Merge(l, r).span, l) && Carries(Merge(l, r).span, r)
  {
    MergeIsRun(l.segments, r.segments, Pool(all, l.lineage));
    MergeBuilds(l, r);
  }

  lemma {:induction false} PrefixPasses(segs: seq<Segment>, n: nat, pool: set<Segment>)
    requires Contiguous(segs) && Within(segs, pool) && Coherent(pool) && 0 < n <= |segs|
    ensures Contiguous(segs[..n]) && Within(segs[..n], pool) && CitationError(segs[..n]) == None
  {
    RunPassesCheck(segs[..n], pool);
  }

  /** A non-empty prefix of a good span builds a good span. */
  lemma {:induction false} PrefixIsGood(all: seq<Span>, source: Span, n: nat)
    requires WellFormed(all) && Good(all, source) && 0 < n <= |source.segments|
    ensures var b := WithSegments(source, source.segments[..n], source.provenance, source.parents, source.score);
      && b.Built? && Good(all, b.span) && b.span.segments == source.segments[..n]
  {
    var segs, pool := source.segments[..n], Pool(all, source.lineage);
    assert CitationError(segs) == None && Contiguous(segs) && Within(segs, pool) by {
      PrefixPasses(source.segments, n, pool);
    }
  }

  lemma {:induction false} FitLength(segs: seq<Segment>, budget: nat) returns (n: nat)
    ensures n == FitFrom(segs, 0, budget) <= |segs| && |Quote(segs[..n])| <= budget
    ensures |Ids(segs[..n])| == n && |Ids(segs)| == |segs| && (n == |segs| ==> segs[..n] == segs)
  {
    n := FitFrom(segs, 0, budget);
    assert segs[..0] == [];
    FitIsLongestPrefix(segs, 0, budget, n);
  }

  /** Fitting a good span keeps a good span, or keeps nothing; nothing is lost silently. */
  lemma {:induction false} FitIsOk(all: seq<Span>, source: Span, budget: nat)
    requires WellFormed(all) && Good(all, source)
    ensures var f := Fit(source, budget); f.Some? ==>
      && f.value.Built? && Good(all, f.value.span) && |f.value.span.quote| <= budget
      && (Ids(f.value.span.segments) == Ids(source.segments) ==> f.value.span == source)
  {
    var n := FitLength(source.segments, budget);
    if 0 < n < |source.segments| {
      PrefixIsGood(all, source, n);
    }
  }

  /** What packing needs to know of the spans it handles: merging two that touch and fitting one
      succeed, stay good, and lose nothing unnoticed. */
  ghost predicate Keeps(good: Span -> bool) {
    && (forall s {:trigger good(s)} :: good(s) ==> s.segments != [])
    && (forall l, r {:trigger Merge(l, r)} :: good(l) && good(r) ==>
          l.lineage == r.lineage && RelationOf(l.segments, r.segments) != Separate ==>
          Merge(l, r).Built? && good(Merge(l, r).span) && Carries(Merge(l, r).span, l) && Carries(Merge(l, r).span, r))
    && (forall s, budget: nat {:trigger Fit(s, budget)} :: good(s) && Fit(s, budget).Some? ==>
          && Fit(s, budget).value.Built? && good(Fit(s, budget).value.span) && |Fit(s, budget).value.span.quote| <= budget
          && (Ids(Fit(s, budget).value.span.segments) == Ids(s.segments) ==> Fit(s, budget).value.span == s))
  }

  lemma {:induction false} GoodKeeps(all: seq<Span>, good: Span -> bool)
    requires WellFormed(all) && forall s :: good(s) == Good(all, s)
    ensures Keeps(good)
  {
    forall l, r {:trigger Merge(l, r)} | good(l) && good(r) && l.lineage == r.lineage && RelationOf(l.segments, r.segments) != Separate
      ensures Merge(l, r).Built? && good(Merge(l, r).span) && Carries(Merge(l, r).span, l) && Carries(Merge(l, r).span, r)
    {
      MergeIsGood(all, l, r);
    }
    forall s, budget: nat {:trigger Fit(s, budget)} | good(s) && Fit(s, budget).Some?
      ensures Fit(s, budget).value.Built? && good(Fit(s, budget).value.span) && |Fit(s, budget).value.span.quote| <= budget
      ensures Ids(Fit(s, budget).value.span.segments) == Ids(s.segments) ==> Fit(s, budget).value.span == s
    {
      FitIsOk(all, s, budget);
    }
  }

  ghost predicate PlaceOk(good: Span -> bool, p: Pack, span: Span, lim: Limits, r: Outcome) {
    && r.Packed? && Budgets(good, r.pack, lim) && Grows(p.selected, r.pack.selected)
    && (p.truncated ==> r.pack.truncated)
    && (!r.pack.truncated ==> Covered(r.pack.selected, span))
  }

  lemma {:induction false} AdmitOk(good: Span -> bool, p: Pack, span: Span, lim: Limits)
    requires Budgets(good, p, lim) && good(span) && |span.quote| <= lim.perSpan
    ensures PlaceOk(good, p, span, lim, Packed(Admit(p, span, lim)))
  {
    var q := Admit(p, span, lim);
    if q.selected != p.selected {
      assert q.selected[..|q.selected| - 1] == p.selected;
      assert Carries(q.selected[|p.selected|], span);
    }
  }

  /** Replacing one selected span by a good span that carries it and the new one. */
  lemma {:induction false} ReplaceOk(good: Span -> bool, p: Pack, span: Span, i: nat, c: Span, lim: Limits)
    requires Budgets(good, p, lim) && i < |p.selected|
    requires good(c) && Carries(c, p.selected[i]) && Carries(c, span)
    requires |c.quote| <= lim.perSpan && p.total + (|c.quote| - |p.selected[i].quote|) <= lim.total
    ensures PlaceOk(good, p, span, lim,
                    Packed(p.(selected := p.selected[i := c], total := p.total + (|c.quote| - |p.selected[i].quote|))))
  {
    SumUpdate(p.selected, i, c);
    var q := p.selected[i := c];
    assert Carries(q[i], span);
    forall k | 0 <= k < |q| ensures Carries(q[k], p.selected[k]) {
    }
  }

  /** The three ways a turn can go at a touching span. */
  function Turn(p: Pack, i: nat, lim: Limits, relation: Relation, c: Span, pass: Outcome, lose: Outcome): Outcome
    requires i < |p.selected|
  {
    var delta := |c.quote| - |p.selected[i].quote|;
    if |c.quote| > lim.perSpan && relation != Overlap then pass
    else if |c.quote| > lim.perSpan || p.total + delta > lim.total then lose
    else Packed(p.(selected := p.selected[i := c], total := p.total + delta))
  }

  lemma {:induction false} TurnIsOk(good: Span -> bool, p: Pack, span: Span, i: nat, lim: Limits, relation: Relation, c: Span, pass: Outcome, lose: Outcome)
    requires Budgets(good, p, lim) && i < |p.selected| && good(c) && Carries(c, p.selected[i]) && Carries(c, span)
    requires PlaceOk(good, p, span, lim, pass) && PlaceOk(good, Lose(p), span, lim, lose)
    ensures PlaceOk(good, p, span, lim, Turn(p, i, lim, relation, c, pass, lose))
  {
    if |c.quote| <= lim.perSpan && p.total + (|c.quote| - |p.selected[i].quote|) <= lim.total {
      ReplaceOk(good, p, span, i, c, lim);
    }
  }

  /** One turn of the inner loop at a touching span of the same lineage. */
  lemma {:induction false} PlaceUnfolds(p: Pack, span: Span, i: nat, merged: bool, lim: Limits, relation: Relation, c: Span, pass: Outcome, lose: Outcome)
    requires i < |p.selected| && AllNonempty(p) && span.segments != [] && p.selected[i].lineage == span.lineage
    requires relation == RelationOf(p.selected[i].segments, span.segments) != Separate && Merge(p.selected[i], span) == Built(c)
    requires pass == Place(p, span, i + 1, merged, lim) && lose == Place(Lose(p), span, i + 1, true, lim)
    ensures Place(p, span, i, merged, lim) == Turn(p, i, lim, relation, c, pass, lose)
  {
  }

  /** The inner loop: every merge it tries passes the citation check, and it keeps all budgets. */
  lemma {:induction false} PlaceIsOk(good: Span -> bool, p: Pack, span: Span, i: nat, merged: bool, lim: Limits) returns (r: Outcome)
    requires Keeps(good) && Budgets(good, p, lim) && good(span) && |span.quote| <= lim.perSpan
    requires i <= |p.selected| && AllNonempty(p) && span.segments != [] && (merged ==> p.truncated)
    ensures r == Place(p, span, i, merged, lim) && PlaceOk(good, p, span, lim, r)
    decreases |p.selected| - i
  {
    if i == |p.selected| {
      AdmitOk(good, p, span, lim);
      r := Packed(if merged then p else Admit(p, span, lim));
    } else {
      var existing := p.selected[i];
      var pass := PlaceIsOk(good, p, span, i + 1, merged, lim);
      if existing.lineage != span.lineage || RelationOf(existing.segments, span.segments) == Separate {
        r := pass;
      } else {
        var lose := PlaceIsOk(good, Lose(p), span, i + 1, true, lim);
        var relation, c := RelationOf(existing.segments, span.segments), Merge(existing, span).span;
        PlaceUnfolds(p, span, i, merged, lim, relation, c, pass, lose);
        TurnIsOk(good, p, span, i, lim, relation, c, pass, lose);
        r := Turn(p, i, lim, relation, c, pass, lose);
      }
    }
  }

  lemma {:induction false} TakeIsOk(good: Span -> bool, p: Pack, source: Span, lim: Limits) returns (r: Outcome)
    requires Keeps(good) && Budgets(good, p, lim) && good(source) && AllNonempty(p)
    ensures r == Take(p, source, lim) && PlaceOk(good, p, source, lim, r)
  {
    var f := Fit(source, lim.perSpan);
    if f.Some? {
      var span := f.value.span;
      var q := if Ids(span.segments) != Ids(source.segments) then p.(truncated := true) else p;
      assert Budgets(good, q, lim);
      r := PlaceIsOk(good, q, span, 0, false, lim);
    } else {
      r := Packed(Lose(p));
    }
  }

  lemma {:induction false} CoverageGrows(old_: seq<Span>, new_: seq<Span>, s: Span)
    requires Grows(old_, new_) && Covered(old_, s)
    ensures Covered(new_, s)
  {
    var i :| 0 <= i < |old_| && Carries(old_[i], s);
    assert Carries(new_[i], old_[i]);
    assert Carries(new_[i], s);
  }

  /** What every prefix of the input leaves behind. */
  ghost predicate BuildOk(good: Span -> bool, spans: seq<Span>, lim: Limits, r: Outcome) {
    && r.Packed? && Budgets(good, r.pack, lim)
    && (!r.pack.truncated ==> forall i :: 0 <= i < |spans| ==> Covered(r.pack.selected, spans[i]))
  }

  lemma {:induction false} BuildStep(good: Span -> bool, init: seq<Span>, last: Span, lim: Limits, p: Pack, r: Outcome)
    requires BuildOk(good, init, lim, Packed(p)) && PlaceOk(good, p, last, lim, r)
    ensures BuildOk(good, init + [last], lim, r)
  {
    if !r.pack.truncated {
      forall i | 0 <= i < |init| ensures Covered(r.pack.selected, (init + [last])[i]) {
        CoverageGrows(p.selected, r.pack.selected, init[i]);
      }
    }
  }

  lemma {:induction false} BuildIsOk(good: Span -> bool, spans: seq<Span>, lim: Limits) returns (r: Outcome)
    requires Keeps(good) && forall i :: 0 <= i < |spans| ==> good(spans[i])
    ensures r == BuildAll(spans, lim) && BuildOk(good, spans, lim, r)
    decreases |spans|
  {
    if spans == [] {
      r := Packed(EMPTY);
    } else {
      var init, last := spans[..|spans| - 1], spans[|spans| - 1];
      assert init + [last] == spans;
      var before := BuildIsOk(good, init, lim);
      assert AllNonempty(before.pack);
      r := TakeIsOk(good, before.pack, last, lim);
      BuildUnfolds(init, last, lim, before.pack);
      BuildStep(good, init, last, lim, before.pack, r);
    }
  }

  lemma {:induction false} BuildUnfolds(init: seq<Span>, last: Span, lim: Limits, p: Pack)
    requires BuildAll(init, lim) == Packed(p)
    ensures AllNonempty(p) && BuildAll(init + [last], lim) == Take(p, last, lim)
  {
    assert (init + [last])[..|init|] == init;
  }

  /** The run of `build` on well-formed evidence. */
  lemma {:induction false} WellFormedBuilds(spans: seq<Span>, lim: Limits) returns (r: Outcome)
    requires WellFormed(spans)
    ensures r == BuildAll(spans, lim) && BuildOk(s => Good(spans, s), spans, lim, r)
  {
    GoodKeeps(spans, s => Good(spans, s));
    r := BuildIsOk(s => Good(spans, s), spans, lim);
  }

  /** Packing well-formed evidence never fails the citation check.  After any chain of truncations
      and merges every selected span is a contiguous, strictly ordered, duplicate-free run of one
      lineage, made of input segments, with the quote and citation of exactly those segments; the
      running total is the sum of the quote lengths; and the per-span, total and count budgets hold. */
  lemma {:induction false} PackingIsSound(spans: seq<Span>, lim: Limits)
    requires WellFormed(spans)
    ensures var r := BuildAll(spans, lim);
      && r.Packed?
      && (forall i :: 0 <= i < |r.pack.selected| ==>
            var s := r.pack.selected[i];
            && CitationError(s.segments) == None && s.citation == CitationOf(s.lineage, s.segments)
            && Within(s.segments, Pool(spans, s.lineage))
            && s.quote == Quote(s.segments) && |s.quote| <= lim.perSpan)
      && r.pack.total == SumQuotes(r.pack.selected) <= lim.total
      && |r.pack.selected| <= lim.maxSpans
  {
    var r := WellFormedBuilds(spans, lim);
    var p := r.pack;
    forall i | 0 <= i < |p.selected| ensures CitationError(p.selected[i].segments) == None {
      RunPassesCheck(p.selected[i].segments, Pool(spans, p.selected[i].lineage));
    }
  }

  /** If packing reports no truncation, it lost nothing: every input span lies whole, with its
      provenance and its parents, in one selected span, and nothing was counted as dropped. */
  lemma {:induction false} UntruncatedLosesNothing(spans: seq<Span>, lim: Limits)
    requires WellFormed(spans)
    ensures var r := BuildAll(spans, lim); r.Packed? && !r.pack.truncated ==>
      r.pack.dropped == 0 && forall i :: 0 <= i < |spans| ==> Covered(r.pack.selected, spans[i])
  {
    var _ := WellFormedBuilds(spans, lim);
  }

  /** The citation check is exact on coherent evidence: it accepts a non-empty sequence of
      segments of one lineage if and only if they are a contiguous run. */
  lemma {:induction false} CheckAcceptsIff(segs: seq<Segment>, pool: set<Segment>)
    requires Coherent(pool) && Within(segs, pool)
    ensures CitationError(segs) == None <==> Contiguous(segs)
  {
    if Contiguous(segs) {
      RunPassesCheck(segs, pool);
    }
  }
}
