/** What packing must keep: evidence is dropped or cut only for a budget. */
module PackingKeeps {
  import opened Wrappers
  import opened Evidence
  import opened Packing
  import opened PackingSafety

  /** No segment of one is at, or next to, a place of the other. */
  ghost predicate Apart(l: Span, r: Span) {
    l.lineage != r.lineage ||
    forall a, b :: a in l.segments && b in r.segments ==> a.local + 1 < b.local || b.local + 1 < a.local
  }

  /** A span that keeps its whole quote under the per-span budget. */
  ghost predicate Whole(s: Span, lim: Limits) {
    s.segments != [] && s.quote == Quote(s.segments) && |s.quote| <= lim.perSpan
  }

  lemma {:induction false} BoundsAreReached(segs: seq<Segment>)
    requires segs != []
    ensures (exists a :: a in segs && a.local == MaxLocal(segs)) && (exists a :: a in segs && a.local == MinLocal(segs))
  {
    if |segs| == 1 {
      assert segs[0] in segs;
    } else {
      BoundsAreReached(segs[1..]);
      assert segs[0] in segs && forall x :: x in segs[1..] ==> x in segs;
    }
  }

  lemma {:induction false} ApartIsSeparate(l: Span, r: Span)
    requires Apart(l, r) && l.lineage == r.lineage && l.segments != [] && r.segments != []
    ensures RelationOf(l.segments, r.segments) == Separate
  {
    BoundsAreReached(l.segments);
    BoundsAreReached(r.segments);
    assert forall i, j :: 0 <= i < |l.segments| && 0 <= j < |r.segments| ==> l.segments[i] in l.segments && r.segments[j] in r.segments;
  }

  lemma {:induction false} WholeFits(s: Span, lim: Limits)
    requires Whole(s, lim)
    ensures Fit(s, lim.perSpan) == Some(Built(s))
  {
    assert s.segments[..|s.segments|] == s.segments && s.segments[..0] == [];
    FitIsLongestPrefix(s.segments, 0, lim.perSpan, |s.segments|);
  }

  /** A span that is apart from the selected spans from `i` on is passed through to the end. */
  lemma {:induction false} PassesBy(p: Pack, s: Span, i: nat, merged: bool, lim: Limits)
    requires AllNonempty(p) && s.segments != [] && i <= |p.selected|
    requires forall k :: i <= k < |p.selected| ==> Apart(p.selected[k], s)
    ensures Place(p, s, i, merged, lim) == Place(p, s, |p.selected|, merged, lim)
    decreases |p.selected| - i
  {
    hide Admit, Merge, Apart, RelationOf;
    if i < |p.selected| {
      assert p.selected[i] in p.selected && Apart(p.selected[i], s);
      if p.selected[i].lineage == s.lineage {
        ApartIsSeparate(p.selected[i], s);
      }
      PassesBy(p, s, i + 1, merged, lim);
    }
  }

  /** What a span adds when nothing takes it in: itself, or one dropped span when a budget is used
      up. */
  function Added(p: Pack, s: Span, lim: Limits): Pack {
    if |p.selected| < lim.maxSpans && p.total + |s.quote| <= lim.total
    then Pack(p.selected + [s], p.total + |s.quote|, p.truncated, p.dropped)
    else Pack(p.selected, p.total, true, p.dropped + 1)
  }

  /** A whole span that is apart from every selected span is selected as it is, and nothing else
      changes, if and only if there is room; otherwise it is counted as dropped. */
  lemma {:induction false} ApartIsSelected(p: Pack, s: Span, lim: Limits)
    requires AllNonempty(p) && Whole(s, lim) && forall k :: 0 <= k < |p.selected| ==> Apart(p.selected[k], s)
    ensures Take(p, s, lim) == Packed(Added(p, s, lim))
  {
    WholeFits(s, lim);
    PassesBy(p, s, 0, false, lim);
    hide Apart, Fit, AllNonempty;
  }

  /** The input whose spans are whole, apart from one another and within all budgets is selected
      span for span, untruncated. */
  lemma {:induction false} RoomyInputIsKept(spans: seq<Span>, lim: Limits)
    requires forall i :: 0 <= i < |spans| ==> Whole(spans[i], lim)
    requires forall i, j :: 0 <= i < j < |spans| ==> Apart(spans[i], spans[j])
    requires |spans| <= lim.maxSpans && SumQuotes(spans) <= lim.total
    ensures BuildAll(spans, lim) == Packed(Pack(spans, SumQuotes(spans), false, 0))
  {
    hide Take, Apart, Whole;
    if spans != [] {
      var n := |spans| - 1;
      var init := spans[..n];
      RoomyInputIsKept(init, lim);
      var p := Pack(init, SumQuotes(init), false, 0);
      assert forall i :: 0 <= i < n ==> init[i] == spans[i];
      WholeAreNonempty(init, lim);
      ApartIsSelected(p, spans[n], lim);
      assert init + [spans[n]] == spans;
    }
  }

  lemma {:induction false} WholeAreNonempty(spans: seq<Span>, lim: Limits)
    requires forall i :: 0 <= i < |spans| ==> Whole(spans[i], lim)
    ensures AllNonempty(Pack(spans, SumQuotes(spans), false, 0))
  {
    hide SumQuotes;
    forall s | s in spans ensures s.segments != [] {
      var i :| 0 <= i < |spans| && spans[i] == s;
      assert Whole(spans[i], lim);
    }
  }

  /** A span whose first segment alone is too long is dropped. */
  lemma {:induction false} TooLongIsDropped(p: Pack, s: Span, lim: Limits)
    requires AllNonempty(p) && s.segments != [] && |Quote(s.segments[..1])| > lim.perSpan
    ensures Take(p, s, lim) == Packed(Pack(p.selected, p.total, true, p.dropped + 1))
  {
    assert Fit(s, lim.perSpan) == None;
  }

  /** Up to a touching span the inner loop changes nothing. */
  lemma {:induction false} ReachesTouching(p: Pack, s: Span, i: nat, t: nat, lim: Limits)
    requires AllNonempty(p) && s.segments != [] && i <= t < |p.selected|
    requires forall k :: 0 <= k < |p.selected| && k != t ==> Apart(p.selected[k], s)
    ensures Place(p, s, i, false, lim) == Place(p, s, t, false, lim)
    decreases t - i
  {
    hide Admit, Merge, Apart, RelationOf;
    if i < t {
      assert p.selected[i] in p.selected && Apart(p.selected[i], s);
      if p.selected[i].lineage == s.lineage {
        ApartIsSeparate(p.selected[i], s);
      }
      ReachesTouching(p, s, i + 1, t, lim);
    }
  }

  /** What becomes of a whole span that touches one selected span: they are merged in place when the
      merged span keeps both budgets; otherwise the span is dropped, unless it is only adjacent and
      the merged span would be too long: then it stands on its own. */
  lemma {:induction false} TouchingIsMerged(all: seq<Span>, p: Pack, s: Span, t: nat, lim: Limits)
    requires WellFormed(all) && Good(all, s) && Whole(s, lim) && AllNonempty(p)
    requires t < |p.selected| && Good(all, p.selected[t]) && p.selected[t].lineage == s.lineage
    requires RelationOf(p.selected[t].segments, s.segments) != Separate
    requires forall k :: 0 <= k < |p.selected| && k != t ==> Apart(p.selected[k], s)
    ensures Merge(p.selected[t], s).Built?
    ensures var c := Merge(p.selected[t], s).span; var total := p.total + |c.quote| - |p.selected[t].quote|;
      && (forall x :: x in c.segments <==> x in p.selected[t].segments || x in s.segments) && Good(all, c)
      && Take(p, s, lim) == Packed(
           if |c.quote| <= lim.perSpan && total <= lim.total then Pack(p.selected[t := c], total, p.truncated, p.dropped)
           else if |c.quote| > lim.perSpan && !Touches(p.selected[t].segments, s.segments) then Added(p, s, lim)
           else Pack(p.selected, p.total, true, p.dropped + 1))
  {
    hide Merge, Place, Fit, Good, WellFormed, Apart, RelationOf, Touches, Added, Take, Quote;
    var e := p.selected[t];
    assert e in p.selected;
    MergeHoldsBoth(all, e, s);
    WholeFits(s, lim);
    TouchingIsPlaced(p, s, t, lim, Merge(e, s).span);
    PlacesFitted(p, s, lim);
  }

  lemma {:induction false} TouchingIsPlaced(p: Pack, s: Span, t: nat, lim: Limits, c: Span)
    requires AllNonempty(p) && s.segments != [] && t < |p.selected| && p.selected[t].lineage == s.lineage && p.selected[t].segments != []
    requires RelationOf(p.selected[t].segments, s.segments) != Separate && Merge(p.selected[t], s) == Built(c)
    requires forall k :: 0 <= k < |p.selected| && k != t ==> Apart(p.selected[k], s)
    ensures var total := p.total + |c.quote| - |p.selected[t].quote|;
      Place(p, s, 0, false, lim) == Packed(
        if |c.quote| <= lim.perSpan && total <= lim.total then Pack(p.selected[t := c], total, p.truncated, p.dropped)
        else if |c.quote| > lim.perSpan && !Touches(p.selected[t].segments, s.segments) then Added(p, s, lim)
        else Pack(p.selected, p.total, true, p.dropped + 1))
  {
    hide Merge, Place, Apart, RelationOf, Touches, Added;
    ReachesTouching(p, s, 0, t, lim);
    PassesBy(p, s, t + 1, false, lim);
    PassesBy(Lose(p), s, t + 1, true, lim);
    TurnAtTouching(p, s, t, lim, c);
  }

  lemma {:induction false} PlacesFitted(p: Pack, s: Span, lim: Limits)
    requires AllNonempty(p) && s.segments != [] && Fit(s, lim.perSpan) == Some(Built(s))
    ensures Take(p, s, lim) == Place(p, s, 0, false, lim)
  {
    hide Place, Fit;
  }

  lemma {:induction false} MergeHoldsBoth(all: seq<Span>, e: Span, s: Span)
    requires WellFormed(all) && Good(all, e) && Good(all, s) && e.lineage == s.lineage && RelationOf(e.segments, s.segments) != Separate
    ensures Merge(e, s).Built? && Good(all, Merge(e, s).span)
    ensures forall x :: x in Merge(e, s).span.segments <==> x in e.segments || x in s.segments
  {
    MergeIsRun(e.segments, s.segments, Pool(all, s.lineage));
    MergeIsGood(all, e, s);
    MergeBuilds(e, s);
  }

  lemma {:induction false} TurnAtTouching(p: Pack, s: Span, t: nat, lim: Limits, c: Span)
    requires AllNonempty(p) && s.segments != [] && t < |p.selected| && p.selected[t].lineage == s.lineage && p.selected[t].segments != []
    requires RelationOf(p.selected[t].segments, s.segments) != Separate && Merge(p.selected[t], s) == Built(c)
    requires Place(p, s, t + 1, false, lim) == Place(p, s, |p.selected|, false, lim)
    requires Place(Lose(p), s, t + 1, true, lim) == Place(Lose(p), s, |p.selected|, true, lim)
    ensures var total := p.total + |c.quote| - |p.selected[t].quote|;
      Place(p, s, t, false, lim) == Packed(
        if |c.quote| <= lim.perSpan && total <= lim.total then Pack(p.selected[t := c], total, p.truncated, p.dropped)
        else if |c.quote| > lim.perSpan && !Touches(p.selected[t].segments, s.segments) then Added(p, s, lim)
        else Pack(p.selected, p.total, true, p.dropped + 1))
  {
    hide Merge, MaxLocal, MinLocal, Touches;
  }
}
