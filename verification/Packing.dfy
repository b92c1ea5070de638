/** Greedy evidence packing: `TranscriptContextBuilder.build` of `src/shiliu/ask/context.py`. */
module Packing {
  import opened Wrappers
  import opened Evidence

  datatype Limits = Limits(perSpan: nat, total: nat, maxSpans: nat)

  /** The builder's running state. */
  datatype Pack = Pack(selected: seq<Span>, total: int, truncated: bool, dropped: nat)

  /** An error of the citation check propagates out of `build`. */
  datatype Outcome = Packed(pack: Pack) | Failed(error: Error)

  function Lose(p: Pack): Pack {
    p.(truncated := true, dropped := p.dropped + 1)
  }

  /** Append the span when no selected span took it in. */
  function Admit(p: Pack, span: Span, lim: Limits): Pack {
    if |p.selected| >= lim.maxSpans || p.total + |span.quote| > lim.total then Lose(p)
    else p.(selected := p.selected + [span], total := p.total + |span.quote|)
  }

  /** The inner loop over the selected spans, from index `i` on; `merged` is its flag. */
  function Place(p: Pack, span: Span, i: nat, merged: bool, lim: Limits): Outcome
    requires i <= |p.selected| && span.segments != [] && forall s :: s in p.selected ==> s.segments != []
    decreases |p.selected| - i
  {
    if i == |p.selected| then Packed(if merged then p else Admit(p, span, lim))
    else
      var existing := p.selected[i];
      if existing.lineage != span.lineage then Place(p, span, i + 1, merged, lim)
      else
        var relation := RelationOf(existing.segments, span.segments);
        if relation == Separate then Place(p, span, i + 1, merged, lim)
        else
          match Merge(existing, span)
          case Refused(error) => Failed(error)
          case Built(candidate) =>
            var delta := |candidate.quote| - |existing.quote|;
            if |candidate.quote| > lim.perSpan then
              if relation == Overlap then Place(Lose(p), span, i + 1, true, lim) else Place(p, span, i + 1, merged, lim)
            else if p.total + delta > lim.total then Place(Lose(p), span, i + 1, true, lim)
            else Packed(p.(selected := p.selected[i := candidate], total := p.total + delta))
  }

  /** One source span: fit it, then place it. */
  function Take(p: Pack, source: Span, lim: Limits): Outcome
    requires forall s :: s in p.selected ==> s.segments != []
  {
    match Fit(source, lim.perSpan)
    case None => Packed(Lose(p))
    case Some(Refused(error)) => Failed(error)
    case Some(Built(span)) =>
      FitIsNonempty(source, lim.perSpan);
      var q := if Ids(span.segments) != Ids(source.segments) then p.(truncated := true) else p;
      Place(q, span, 0, false, lim)
  }

  lemma {:induction false} FitIsNonempty(source: Span, budget: nat)
    ensures var f := Fit(source, budget); f.Some? && f.value.Built? ==> f.value.span.segments != []
  {
  }

  ghost predicate AllNonempty(p: Pack) {
    forall s :: s in p.selected ==> s.segments != []
  }

  lemma {:induction false} PlaceKeepsNonempty(p: Pack, span: Span, i: nat, merged: bool, lim: Limits)
    requires i <= |p.selected| && span.segments != [] && AllNonempty(p)
    ensures var r := Place(p, span, i, merged, lim); r.Packed? ==> AllNonempty(r.pack)
    decreases |p.selected| - i
  {
    if i < |p.selected| {
      PlaceKeepsNonempty(p, span, i + 1, merged, lim);
      PlaceKeepsNonempty(Lose(p), span, i + 1, true, lim);
    }
  }

  lemma {:induction false} TakeKeepsNonempty(p: Pack, source: Span, lim: Limits)
    requires AllNonempty(p)
    ensures var r := Take(p, source, lim); r.Packed? ==> AllNonempty(r.pack)
  {
    var f := Fit(source, lim.perSpan);
    FitIsNonempty(source, lim.perSpan);
    if f.Some? && f.value.Built? {
      var span := f.value.span;
      PlaceKeepsNonempty(if Ids(span.segments) != Ids(source.segments) then p.(truncated := true) else p, span, 0, false, lim);
    }
  }

  const EMPTY := Pack([], 0, false, 0)

  /** The outer loop over the spans, in the order they come. */
  function BuildAll(spans: seq<Span>, lim: Limits): (r: Outcome)
    ensures r.Packed? ==> AllNonempty(r.pack)
  {
    if spans == [] then Packed(EMPTY)
    else
      match BuildAll(spans[..|spans| - 1], lim)
      case Failed(error) => Failed(error)
      case Packed(p) =>
        TakeKeepsNonempty(p, spans[|spans| - 1], lim);
        Take(p, spans[|spans| - 1], lim)
  }

  /** The citation allowlist handed to the model. */
  function Allowlist(p: Pack): seq<Citation> {
    seq(|p.selected|, i requires 0 <= i < |p.selected| => p.selected[i].citation)
  }

  /** The builder as the program has it: lists and counters updated in place. */
  class Builder {
    const lim: Limits
    var selected: seq<Span>
    var total: int
    var truncated: bool
    var dropped: nat

    ghost function State(): Pack
      reads this
    {
      Pack(selected, total, truncated, dropped)
    }

    constructor (lim: Limits)
      requires lim.perSpan > 0 && lim.total > 0 && lim.maxSpans > 0
      ensures this.lim == lim && State() == EMPTY
    {
      this.lim := lim;
      selected, total, truncated, dropped := [], 0, false, 0;
    }

    /** `_fit_span`'s loop. */
    method FitSpan(span: Span) returns (fitted: Option<Built>)
      ensures fitted == Fit(span, lim.perSpan)
    {
      var n := 0;
      while n < |span.segments|
        invariant 0 <= n <= |span.segments| && FitFrom(span.segments, n, lim.perSpan) == FitFrom(span.segments, 0, lim.perSpan)
      {
        var candidate := Quote(span.segments[..n + 1]);
        if |candidate| > lim.perSpan {
          break;
        }
        n := n + 1;
      }
      if n == 0 {
        return None;
      }
      if n == |span.segments| {
        return Some(Built(span));
      }
      fitted := Some(WithSegments(span, span.segments[..n], span.provenance, span.parents, span.score));
    }

    method LoseOne()
      modifies `truncated, `dropped
      ensures State() == Lose(old(State()))
    {
      truncated, dropped := true, dropped + 1;
    }

    /** After the inner loop: append the span unless some selected span dealt with it. */
    method AdmitSpan(span: Span)
      requires AllNonempty(State()) && span.segments != []
      modifies `selected, `total, `truncated, `dropped
      ensures State() == Admit(old(State()), span, lim) && AllNonempty(State())
    {
      if |selected| >= lim.maxSpans || total + |span.quote| > lim.total {
        LoseOne();
      } else {
        selected := selected + [span];
        total := total + |span.quote|;
      }
    }

    /** The inner loop over the selected spans. */
    method PlaceSpan(span: Span) returns (error: Option<Error>)
      requires AllNonempty(State()) && span.segments != []
      modifies `selected, `total, `truncated, `dropped
      ensures Place(old(State()), span, 0, false, lim) == if error.Some? then Failed(error.value) else Packed(State())
    {
      ghost var goal := Place(State(), span, 0, false, lim);
      var merged := false;
      var index := 0;
      while index < |selected|
        invariant 0 <= index <= |selected| && AllNonempty(State()) && Place(State(), span, index, merged, lim) == goal
        decreases |selected| - index
      {
        ghost var p := State();
        var existing := selected[index];
        index := index + 1;
        if existing.lineage != span.lineage {
          continue;
        }
        var relation := RelationOf(existing.segments, span.segments);
        if relation == Separate {
          continue;
        }
        var merge := Merge(existing, span);
        if merge.Refused? {
          return Some(merge.error);
        }
        var candidate := merge.span;
        if |candidate.quote| > lim.perSpan {
          if relation == Overlap {
            LoseOne();
            merged := true;
            assert State() == Lose(p);
          }
          continue;
        }
        var delta := |candidate.quote| - |existing.quote|;
        if total + delta > lim.total {
          LoseOne();
          merged := true;
          assert State() == Lose(p);
          continue;
        }
        selected := selected[index - 1 := candidate];
        total := total + delta;
        return None;
      }
      if !merged {
        AdmitSpan(span);
      }
      error := None;
    }

    /** One turn of the outer loop. */
    method TakeSpan(source: Span) returns (error: Option<Error>)
      requires AllNonempty(State())
      modifies `selected, `total, `truncated, `dropped
      ensures Take(old(State()), source, lim) == if error.Some? then Failed(error.value) else Packed(State())
      ensures error.None? ==> AllNonempty(State())
    {
      TakeKeepsNonempty(State(), source, lim);
      FitIsNonempty(source, lim.perSpan);
      var fitted := FitSpan(source);
      if fitted.None? {
        LoseOne();
        return None;
      }
      if fitted.value.Refused? {
        return Some(fitted.value.error);
      }
      var span := fitted.value.span;
      if Ids(span.segments) != Ids(source.segments) {
        truncated := true;
      }
      error := PlaceSpan(span);
    }

    /** `build`, from an empty builder. */
    method Build(spans: seq<Span>) returns (error: Option<Error>)
      requires State() == EMPTY
      modifies this
      ensures BuildAll(spans, lim) == if error.Some? then Failed(error.value) else Packed(State())
    {
      for i := 0 to |spans|
        invariant BuildAll(spans[..i], lim) == Packed(State()) && AllNonempty(State())
      {
        assert spans[..i + 1][..i] == spans[..i];
        error := TakeSpan(spans[i]);
        if error.Some? {
          FailureStays(spans, lim, i + 1);
          return;
        }
      }
      assert spans[..|spans|] == spans;
      error := None;
    }
  }

  lemma {:induction false} FailureStays(spans: seq<Span>, lim: Limits, n: nat)
    requires n <= |spans| && BuildAll(spans[..n], lim).Failed?
    ensures BuildAll(spans, lim) == BuildAll(spans[..n], lim)
    decreases |spans|
  {
    if n == |spans| {
      assert spans[..n] == spans;
    } else {
      var init := spans[..|spans| - 1];
      assert init[..n] == spans[..n];
      FailureStays(init, lim, n);
    }
  }
}
