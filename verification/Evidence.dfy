/** Transcript evidence and its citations: `src/shiliu/ask/citations.py` and the span helpers of
    `src/shiliu/ask/context.py`. */
module Evidence {
  import opened Wrappers

  datatype Segment = Segment(id: string, ordinal: int, local: int, text: string, start: real, end: real)

  /** What two spans must share to be merged. */
  datatype Lineage = Lineage(video: nat, artifact: string, version: string, timeline: string)

  datatype Provenance = Provenance(rank: int, tag: nat)

  /** The identity that is hashed into a citation id; the hash is taken as injective. */
  datatype Citation = Citation(artifact: string, version: string, timeline: string, ids: seq<string>)

  /** `linkable`: a jump link can be rebuilt from the span's URL and video id. */
  datatype Span = Span(lineage: Lineage, segments: seq<Segment>, quote: string, citation: Citation,
                       provenance: seq<Provenance>, parents: seq<string>, score: real, linkable: bool)

  datatype Error = NoSegments | DuplicateSegment | OrderInvalid | NotContiguous | NoLink

  datatype Built = Built(span: Span) | Refused(error: Error)

  /** Whitespace as Python's `str.strip` knows it. */
  predicate IsSpace(c: char) {
    c in {'\t', '\n', '\r', ' '} || '\U{0B}' <= c <= '\U{0C}' || '\U{1C}' <= c <= '\U{1F}' || c == '\U{85}' || c == '\U{A0}' ||
    c == '\U{1680}' || '\U{2000}' <= c <= '\U{200A}' || c in {'\U{2028}', '\U{2029}', '\U{202F}', '\U{205F}', '\U{3000}'}
  }

  function Strip(s: string): string
    decreases |s|
  {
    if s == [] then s
    else if IsSpace(s[0]) then Strip(s[1..])
    else if IsSpace(s[|s| - 1]) then Strip(s[..|s| - 1])
    else s
  }

  /** The non-empty stripped texts, joined by newlines. */
  function Quote(segs: seq<Segment>): string {
    if segs == [] then []
    else
      var init, t := Quote(segs[..|segs| - 1]), Strip(segs[|segs| - 1].text);
      if t == [] then init else if init == [] then t else init + "\n" + t
  }

  function Ids(segs: seq<Segment>): seq<string> {
    seq(|segs|, i requires 0 <= i < |segs| => segs[i].id)
  }

  /** `stable_citation_id`: the checks every citation passes before its identity is formed. */
  function CitationError(segs: seq<Segment>): Option<Error> {
    if segs == [] then Some(NoSegments)
    else if exists i, j :: 0 <= i < j < |segs| && segs[i].id == segs[j].id then Some(DuplicateSegment)
    else if exists i :: 0 <= i < |segs| - 1 && segs[i].ordinal >= segs[i + 1].ordinal then Some(OrderInvalid)
    else if exists i :: 0 <= i < |segs| - 1 && segs[i + 1].local != segs[i].local + 1 then Some(NotContiguous)
    else None
  }

  function CitationOf(l: Lineage, segs: seq<Segment>): Citation {
    Citation(l.artifact, l.version, l.timeline, Ids(segs))
  }

  /** `_span_with_segments`. */
  function WithSegments(span: Span, segs: seq<Segment>, provenance: seq<Provenance>, parents: seq<string>, score: real): Built {
    var error := CitationError(segs);
    if error.Some? then Refused(error.value)
    else if !span.linkable then Refused(NoLink)
    else Built(span.(segments := segs, quote := Quote(segs), citation := CitationOf(span.lineage, segs),
                     provenance := if provenance == [] then span.provenance else provenance,
                     parents := if parents == [] then span.parents else parents, score := score))
  }

  /** How many leading segments fit the character budget, counting from `n` on. */
  function FitFrom(segs: seq<Segment>, n: nat, budget: nat): (r: nat)
    requires n <= |segs|
    ensures n <= r <= |segs|
    decreases |segs| - n
  {
    if n == |segs| || |Quote(segs[..n + 1])| > budget then n else FitFrom(segs, n + 1, budget)
  }

  /** `_fit_span`: None when not even the first segment fits. */
  function Fit(span: Span, budget: nat): Option<Built> {
    var n := FitFrom(span.segments, 0, budget);
    if n == 0 then None
    else if n == |span.segments| then Some(Built(span))
    else Some(WithSegments(span, span.segments[..n], span.provenance, span.parents, span.score))
  }

  datatype Relation = Overlap | Adjacent | Separate

  predicate Touches(l: seq<Segment>, r: seq<Segment>) {
    exists i, j :: 0 <= i < |l| && 0 <= j < |r| && l[i].local == r[j].local
  }

  function MaxLocal(segs: seq<Segment>): int
    requires segs != []
  {
    if |segs| == 1 then segs[0].local
    else var m := MaxLocal(segs[1..]); if segs[0].local > m then segs[0].local else m
  }

  function MinLocal(segs: seq<Segment>): int
    requires segs != []
  {
    if |segs| == 1 then segs[0].local
    else var m := MinLocal(segs[1..]); if segs[0].local < m then segs[0].local else m
  }

  /** `_segment_relation`, on the sets of ordinals within the run. */
  function RelationOf(l: seq<Segment>, r: seq<Segment>): Relation
    requires l != [] && r != []
  {
    if Touches(l, r) then Overlap
    else if MaxLocal(l) + 1 == MinLocal(r) || MaxLocal(r) + 1 == MinLocal(l) then Adjacent
    else Separate
  }

  /** A dictionary entry: the place of its first key, the value of its last. */
  function Put(values: seq<Segment>, s: Segment): seq<Segment> {
    if values == [] then [s]
    else if values[0].id == s.id then [s] + values[1..]
    else [values[0]] + Put(values[1..], s)
  }

  /** The values of `{segment.segment_id: segment for ...}`. */
  function ById(segs: seq<Segment>): seq<Segment> {
    if segs == [] then [] else Put(ById(segs[..|segs| - 1]), segs[|segs| - 1])
  }

  function Insert(s: Segment, sorted: seq<Segment>): seq<Segment> {
    if sorted == [] || s.ordinal < sorted[0].ordinal then [s] + sorted
    else [sorted[0]] + Insert(s, sorted[1..])
  }

  /** `sorted(..., key=original_ordinal)`, which is stable. */
  function SortByOrdinal(segs: seq<Segment>): seq<Segment> {
    if segs == [] then [] else Insert(segs[|segs| - 1], SortByOrdinal(segs[..|segs| - 1]))
  }

  function MergedSegments(l: seq<Segment>, r: seq<Segment>): seq<Segment> {
    SortByOrdinal(ById(l + r))
  }

  /** Each value once, at its first place. */
  function Unique<T(==)>(s: seq<T>): seq<T> {
    if s == [] then []
    else
      var init := Unique(s[..|s| - 1]);
      if s[|s| - 1] in init then init else init + [s[|s| - 1]]
  }

  lemma {:induction false} UniqueKeeps<T>(s: seq<T>)
    ensures forall x :: x in Unique(s) <==> x in s
  {
    if s != [] {
      UniqueKeeps(s[..|s| - 1]);
      assert s == s[..|s| - 1] + [s[|s| - 1]];
    }
  }

  /** `_merge_spans`. */
  function Merge(l: Span, r: Span): Built {
    WithSegments(l, MergedSegments(l.segments, r.segments), Unique(l.provenance + r.provenance), Unique(l.parents + r.parents),
                 if l.score >= r.score then l.score else r.score)
  }

  // ---- runs of one lineage -------------------------------------------------------------------

  /** A contiguous run. */
  ghost predicate Contiguous(segs: seq<Segment>) {
    segs != [] && forall i :: 0 <= i < |segs| - 1 ==> segs[i + 1].local == segs[i].local + 1
  }

  /** The segments of one lineage: an id names one segment, a place in the run holds one
      segment, and both orders agree. */
  ghost predicate Coherent(pool: set<Segment>) {
    forall a, b :: a in pool && b in pool ==>
      && (a.id == b.id ==> a == b)
      && (a.local == b.local ==> a == b)
      && (a.local < b.local <==> a.ordinal < b.ordinal)
  }

  ghost predicate Within(segs: seq<Segment>, pool: set<Segment>) {
    forall i :: 0 <= i < |segs| ==> segs[i] in pool
  }

  lemma {:induction false} PlaceInRun(segs: seq<Segment>, i: nat)
    requires Contiguous(segs) && i < |segs|
    ensures segs[i].local == segs[0].local + i
  {
    if i > 0 {
      PlaceInRun(segs, i - 1);
    }
  }

  /** A contiguous run of a coherent pool passes every citation check. */
  lemma {:induction false} RunPassesCheck(segs: seq<Segment>, pool: set<Segment>)
    requires Contiguous(segs) && Coherent(pool) && Within(segs, pool)
    ensures CitationError(segs) == None
  {
    forall i, j | 0 <= i < j < |segs| ensures segs[i].id != segs[j].id {
      PlaceInRun(segs, i);
      PlaceInRun(segs, j);
    }
  }

  lemma {:induction false} MaxOfRun(segs: seq<Segment>)
    requires Contiguous(segs)
    ensures MaxLocal(segs) == segs[0].local + |segs| - 1 && MinLocal(segs) == segs[0].local
    decreases |segs|
  {
    if |segs| > 1 {
      var tail := segs[1..];
      forall i | 0 <= i < |tail| - 1 ensures tail[i + 1].local == tail[i].local + 1 {
        assert tail[i + 1] == segs[i + 2] && tail[i] == segs[i + 1];
      }
      MaxOfRun(tail);
    }
  }

  // ---- merging -------------------------------------------------------------------------------

  ghost predicate DistinctIds(segs: seq<Segment>) {
    forall i, j :: 0 <= i < j < |segs| ==> segs[i].id != segs[j].id
  }

  lemma {:induction false} PutKeeps(values: seq<Segment>, s: Segment, pool: set<Segment>)
    requires Coherent(pool) && Within(values, pool) && s in pool && DistinctIds(values)
    ensures DistinctIds(Put(values, s)) && Within(Put(values, s), pool)
    ensures forall x :: x in Put(values, s) <==> x in values || x == s
    decreases |values|
  {
    if values != [] && values[0].id != s.id {
      PutKeeps(values[1..], s, pool);
      assert values == [values[0]] + values[1..];
      assert forall x :: x in Put(values[1..], s) ==> x.id != values[0].id;
    } else if values != [] {
      assert values[0] == s;
      assert Put(values, s) == values;
    }
  }

  lemma {:induction false} ByIdKeeps(segs: seq<Segment>, pool: set<Segment>)
    requires Coherent(pool) && Within(segs, pool)
    ensures DistinctIds(ById(segs)) && Within(ById(segs), pool)
    ensures forall x :: x in ById(segs) <==> x in segs
    decreases |segs|
  {
    if segs != [] {
      var init, s := segs[..|segs| - 1], segs[|segs| - 1];
      assert segs == init + [s];
      ByIdKeeps(init, pool);
      PutKeeps(ById(init), s, pool);
    }
  }

  ghost predicate Ascending(segs: seq<Segment>) {
    forall i, j :: 0 <= i < j < |segs| ==> segs[i].ordinal < segs[j].ordinal
  }

  lemma {:induction false} InsertKeeps(s: Segment, sorted: seq<Segment>)
    requires Ascending(sorted) && forall x :: x in sorted ==> x.ordinal != s.ordinal
    ensures Ascending(Insert(s, sorted))
    ensures forall x :: x in Insert(s, sorted) <==> x in sorted || x == s
    decreases |sorted|
  {
    if sorted != [] {
      assert sorted == [sorted[0]] + sorted[1..];
      if s.ordinal >= sorted[0].ordinal {
        InsertKeeps(s, sorted[1..]);
        assert forall x :: x in Insert(s, sorted[1..]) ==> x.ordinal > sorted[0].ordinal;
      }
    }
  }

  lemma {:induction false} SortKeeps(segs: seq<Segment>, pool: set<Segment>)
    requires Coherent(pool) && Within(segs, pool) && DistinctIds(segs)
    ensures Ascending(SortByOrdinal(segs)) && forall x :: x in SortByOrdinal(segs) <==> x in segs
    decreases |segs|
  {
    if segs != [] {
      var init, s := segs[..|segs| - 1], segs[|segs| - 1];
      assert segs == init + [s];
      SortKeeps(init, pool);
      InsertKeeps(s, SortByOrdinal(init));
    }
  }

  lemma {:induction false} MergedIsUnion(l: seq<Segment>, r: seq<Segment>, pool: set<Segment>)
    requires Coherent(pool) && Within(l, pool) && Within(r, pool)
    ensures var m := MergedSegments(l, r);
      && Ascending(m) && Within(m, pool)
      && forall x :: x in m <==> x in l || x in r
  {
    ByIdKeeps(l + r, pool);
    SortKeeps(ById(l + r), pool);
    var m := MergedSegments(l, r);
    forall i | 0 <= i < |m| ensures m[i] in pool {
      assert m[i] in l + r;
    }
  }

  /** Two runs that overlap or are adjacent fill one interval of places. */
  lemma {:induction false} UnionFills(l: seq<Segment>, r: seq<Segment>, x: int)
    requires Contiguous(l) && Contiguous(r) && RelationOf(l, r) != Separate
    requires exists lo, hi :: (lo in l || lo in r) && (hi in l || hi in r) && lo.local <= x <= hi.local
    ensures exists s :: (s in l || s in r) && s.local == x
  {
    var lo, hi :| (lo in l || lo in r) && (hi in l || hi in r) && lo.local <= x <= hi.local;
    PlacesOf(l);
    PlacesOf(r);
    MaxOfRun(l);
    MaxOfRun(r);
    var a, b := l[0].local, r[0].local;
    if Touches(l, r) {
      var i, j :| 0 <= i < |l| && 0 <= j < |r| && l[i].local == r[j].local;
      assert a <= l[i].local < a + |l| && b <= r[j].local < b + |r|;
    }
    if a <= x < a + |l| {
      assert l[x - a] in l && l[x - a].local == x;
    } else {
      assert b <= x < b + |r|;
      assert r[x - b] in r && r[x - b].local == x;
    }
  }

  lemma {:induction false} PlacesOf(segs: seq<Segment>)
    requires Contiguous(segs)
    ensures forall i :: 0 <= i < |segs| ==> segs[i].local == segs[0].local + i
  {
    forall i | 0 <= i < |segs| ensures segs[i].local == segs[0].local + i {
      PlaceInRun(segs, i);
    }
  }

  lemma {:induction false} NoGap(m: seq<Segment>, pool: set<Segment>, i: nat, s: Segment)
    requires Coherent(pool) && Within(m, pool) && Ascending(m) && i < |m| - 1 && s in m
    ensures !(m[i].local < s.local < m[i + 1].local)
  {
    var k :| 0 <= k < |m| && m[k] == s;
  }

  /** The merge of two touching runs of one lineage is again one contiguous run, and it holds
      exactly the segments of both. */
  lemma {:induction false} MergeIsRun(l: seq<Segment>, r: seq<Segment>, pool: set<Segment>)
    requires Coherent(pool) && Within(l, pool) && Within(r, pool) && Contiguous(l) && Contiguous(r)
    requires RelationOf(l, r) != Separate
    ensures var m := MergedSegments(l, r);
      && Contiguous(m) && Within(m, pool) && CitationError(m) == None
      && forall x :: x in m <==> x in l || x in r
  {
    var m := MergedSegments(l, r);
    MergedIsUnion(l, r, pool);
    assert l[0] in m;
    forall i | 0 <= i < |m| - 1 ensures m[i + 1].local == m[i].local + 1 {
      Consecutive(l, r, pool, m, i);
    }
    RunPassesCheck(m, pool);
  }

  lemma {:induction false} Consecutive(l: seq<Segment>, r: seq<Segment>, pool: set<Segment>, m: seq<Segment>, i: nat)
    requires Coherent(pool) && Contiguous(l) && Contiguous(r) && RelationOf(l, r) != Separate
    requires Within(m, pool) && Ascending(m) && i < |m| - 1 && forall x :: x in m <==> x in l || x in r
    ensures m[i + 1].local == m[i].local + 1
  {
    assert m[i] in m && m[i + 1] in m && m[i].ordinal < m[i + 1].ordinal;
    if m[i].local + 1 < m[i + 1].local {
      UnionFills(l, r, m[i].local + 1);
      var s :| (s in l || s in r) && s.local == m[i].local + 1;
      NoGap(m, pool, i, s);
    }
  }

  // ---- the longest prefix that fits ----------------------------------------------------------

  lemma {:induction false} QuoteGrows(segs: seq<Segment>, n: nat)
    requires n < |segs|
    ensures |Quote(segs[..n])| <= |Quote(segs[..n + 1])|
  {
    assert segs[..n + 1][..n] == segs[..n];
  }

  lemma {:induction false} QuoteMonotone(segs: seq<Segment>, m: nat, n: nat)
    requires m <= n <= |segs|
    ensures |Quote(segs[..m])| <= |Quote(segs[..n])|
    decreases n - m
  {
    if m < n {
      QuoteGrows(segs, m);
      QuoteMonotone(segs, m + 1, n);
    }
  }

  /** `_fit_span` keeps the longest prefix of the segments whose quote is within the budget. */
  lemma {:induction false} FitIsLongestPrefix(segs: seq<Segment>, n: nat, budget: nat, k: nat)
    requires n <= |segs| && |Quote(segs[..n])| <= budget && k <= |segs|
    ensures |Quote(segs[..k])| <= budget <==> k <= FitFrom(segs, n, budget)
    decreases |segs| - n
  {
    if n < |segs| && |Quote(segs[..n + 1])| <= budget {
      FitIsLongestPrefix(segs, n + 1, budget, k);
    } else if k <= n {
      QuoteMonotone(segs, k, n);
    } else {
      QuoteMonotone(segs, n + 1, k);
    }
  }
}
