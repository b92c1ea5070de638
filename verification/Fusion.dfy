/** Evidence fusion: `fuse_evidence` of `src/shiliu/ask/context.py`. */
module Fusion {
  import opened Wrappers
  import opened Orders
  import opened Evidence

  /** What one retrieval hit adds to a score. */
  function Weight(p: Provenance): real {
    1.0 / (60.0 + (if p.rank > 1 then p.rank else 1) as real)
  }

  function Score(ps: seq<Provenance>): real {
    if ps == [] then 0.0 else Score(ps[..|ps| - 1]) + Weight(ps[|ps| - 1])
  }

  function StartOf(span: Span): real {
    if span.segments == [] then 0.0 else span.segments[0].start
  }

  /** The sort key; `id` is the text of the citation id. */
  datatype Key = Key(score: real, video: nat, start: real, id: string)

  function KeyOf(span: Span, hash: Citation -> string): Key {
    Key(span.score, span.lineage.video, StartOf(span), hash(span.citation))
  }

  predicate Before(a: Key, b: Key) {
    if a.score != b.score then a.score > b.score
    else if a.video != b.video then a.video < b.video
    else if a.start != b.start then a.start < b.start
    else Lex(a.id, b.id)
  }

  /** The dictionary entry of one citation after all of `spans`: the first occurrence as it is,
      later ones folded into it. */
  function Entry(spans: seq<Span>, c: Citation): Option<Span> {
    if spans == [] then None
    else
      var init, last := Entry(spans[..|spans| - 1], c), spans[|spans| - 1];
      if last.citation != c then init
      else if init.None? then Some(last.(score := Score(last.provenance)))
      else Some(init.value.(provenance := Unique(init.value.provenance + last.provenance),
                            parents := Unique(init.value.parents + last.parents),
                            score := init.value.score + Score(last.provenance)))
  }

  function Keys(spans: seq<Span>, hash: Citation -> string): seq<Key> {
    seq(|spans|, i requires 0 <= i < |spans| => KeyOf(spans[i], hash))
  }

  /** The result: every entry of the dictionary, in the order of the sort key. */
  ghost predicate IsFusion(spans: seq<Span>, fused: seq<Span>, hash: Citation -> string) {
    && Sorted(Before, Keys(fused, hash))
    && (forall i :: 0 <= i < |fused| ==> Entry(spans, fused[i].citation) == Some(fused[i]))
    && (forall c :: Entry(spans, c).Some? ==> exists i :: 0 <= i < |fused| && fused[i].citation == c)
  }

  ghost predicate Injective(hash: Citation -> string) {
    forall a, b :: hash(a) == hash(b) ==> a == b
  }

  /** Equal citation ids describe the same segments of the same video. */
  ghost predicate Consistent(spans: seq<Span>) {
    forall i, j :: 0 <= i < |spans| && 0 <= j < |spans| && spans[i].citation == spans[j].citation ==>
      spans[i].lineage == spans[j].lineage && spans[i].segments == spans[j].segments
  }

  lemma {:induction false} BeforeIsStrict(a: Key, b: Key, c: Key)
    ensures !Before(a, a)
    ensures a != b ==> Before(a, b) || Before(b, a)
    ensures Before(a, b) && Before(b, c) ==> Before(a, c)
  {
    LexTotal(a.id, a.id);
    LexTotal(a.id, b.id);
    if Lex(a.id, b.id) && Lex(b.id, c.id) {
      LexTransitive(a.id, b.id, c.id);
    }
  }

  lemma {:induction false} BeforeOn(keys: set<Key>)
    ensures StrictOn(Before, keys)
  {
    forall a, b, c ensures !Before(a, a) && (a != b ==> Before(a, b) || Before(b, a)) && (Before(a, b) && Before(b, c) ==> Before(a, c)) {
      BeforeIsStrict(a, b, c);
    }
  }

  /** `citation_id in seen`, and where the entry comes from. */
  lemma {:induction false} EntryComesFrom(spans: seq<Span>, c: Citation)
    ensures Entry(spans, c).Some? <==> exists i :: 0 <= i < |spans| && spans[i].citation == c
    ensures Entry(spans, c).Some? ==> Entry(spans, c).value.citation == c
    ensures Entry(spans, c).Some? ==>
      exists i :: 0 <= i < |spans| && spans[i].citation == c && spans[i].lineage == Entry(spans, c).value.lineage && spans[i].segments == Entry(spans, c).value.segments
  {
    if spans != [] {
      var init := spans[..|spans| - 1];
      EntryComesFrom(init, c);
      if Entry(init, c).Some? {
        var i :| 0 <= i < |init| && init[i].citation == c && init[i].lineage == Entry(init, c).value.lineage && init[i].segments == Entry(init, c).value.segments;
        assert spans[i] == init[i];
      }
      if exists i :: 0 <= i < |spans| && spans[i].citation == c {
        var i :| 0 <= i < |spans| && spans[i].citation == c;
        assert i < |init| ==> init[i].citation == c;
      }
    }
  }

  // ---- the score is the sum over all occurrences, in any order ---------------------------------

  /** The sum of the scores of all occurrences of one citation. */
  function Total(spans: seq<Span>, c: Citation): real {
    if spans == [] then 0.0
    else Total(spans[..|spans| - 1], c) + (if spans[|spans| - 1].citation == c then Score(spans[|spans| - 1].provenance) else 0.0)
  }

  /** Each id's fused score is the sum of the scores of its occurrences. */
  lemma {:induction false} ScoreIsTotal(spans: seq<Span>, c: Citation)
    ensures Entry(spans, c).None? ==> Total(spans, c) == 0.0
    ensures Entry(spans, c).Some? ==> Entry(spans, c).value.score == Total(spans, c)
  {
    if spans != [] {
      ScoreIsTotal(spans[..|spans| - 1], c);
    }
  }

  /** A fused span carries the provenance and the parents of every occurrence, and no others. */
  lemma {:induction false} EntryCarries(spans: seq<Span>, c: Citation)
    requires Entry(spans, c).Some?
    ensures var e := Entry(spans, c).value;
      && (forall x :: x in e.provenance <==> exists i :: 0 <= i < |spans| && spans[i].citation == c && x in spans[i].provenance)
      && (forall x :: x in e.parents <==> exists i :: 0 <= i < |spans| && spans[i].citation == c && x in spans[i].parents)
  {
    var init, last := spans[..|spans| - 1], spans[|spans| - 1];
    assert forall i :: 0 <= i < |init| ==> spans[i] == init[i];
    if Entry(init, c).Some? {
      EntryCarries(init, c);
      if last.citation == c {
        var e := Entry(init, c).value;
        UniqueKeeps(e.provenance + last.provenance);
        UniqueKeeps(e.parents + last.parents);
      }
    } else {
      EntryComesFrom(init, c);
    }
  }

  lemma {:induction false} TotalSplit(a: seq<Span>, b: seq<Span>, c: Citation)
    ensures Total(a + b, c) == Total(a, c) + Total(b, c)
    decreases |b|
  {
    if b == [] {
      assert a + b == a;
    } else {
      assert (a + b)[..|a + b| - 1] == a + b[..|b| - 1];
      TotalSplit(a, b[..|b| - 1], c);
    }
  }

  lemma {:induction false} RemoveOne(init: seq<Span>, x: Span, l: seq<Span>, r: seq<Span>)
    requires multiset(init + [x]) == multiset(l + ([x] + r))
    ensures multiset(init) == multiset(l + r)
  {
    assert multiset(init) == multiset(init + [x]) - multiset{x};
    assert multiset(l + r) == multiset(l + ([x] + r)) - multiset{x};
  }

  lemma {:induction false} TotalPermutes(s: seq<Span>, t: seq<Span>, c: Citation)
    requires multiset(s) == multiset(t)
    ensures Total(s, c) == Total(t, c)
    decreases |s|
  {
    if s == [] {
      assert t == [] by {
        assert |multiset(t)| == |t|;
      }
    } else {
      var x, init := s[|s| - 1], s[..|s| - 1];
      assert s == init + [x];
      assert x in multiset(t);
      var j :| 0 <= j < |t| && t[j] == x;
      var l, r := t[..j], t[j + 1..];
      assert t == l + ([x] + r);
      RemoveOne(init, x, l, r);
      TotalPermutes(init, l + r, c);
      TotalSplit(l, r, c);
      TotalSplit(l, [x] + r, c);
      TotalSplit([x], r, c);
      assert [x][..0] == [];
    }
  }

  lemma {:induction false} SameEntryKey(s: seq<Span>, t: seq<Span>, c: Citation, hash: Citation -> string)
    requires multiset(s) == multiset(t) && Consistent(s) && Entry(s, c).Some?
    ensures Entry(t, c).Some? && KeyOf(Entry(s, c).value, hash) == KeyOf(Entry(t, c).value, hash)
  {
    EntryComesFrom(s, c);
    EntryComesFrom(t, c);
    var i :| 0 <= i < |s| && s[i].citation == c && s[i].lineage == Entry(s, c).value.lineage && s[i].segments == Entry(s, c).value.segments;
    assert s[i] in multiset(t);
    var j :| 0 <= j < |t| && t[j].citation == c && t[j].lineage == Entry(t, c).value.lineage && t[j].segments == Entry(t, c).value.segments;
    assert t[j] in multiset(s);
    var k :| 0 <= k < |s| && s[k] == t[j];
    ScoreIsTotal(s, c);
    ScoreIsTotal(t, c);
    TotalPermutes(s, t, c);
  }

  lemma {:induction false} KeysIncluded(s: seq<Span>, t: seq<Span>, fs: seq<Span>, ft: seq<Span>, hash: Citation -> string)
    requires multiset(s) == multiset(t) && Consistent(s) && IsFusion(s, fs, hash) && IsFusion(t, ft, hash)
    ensures forall k :: k in Keys(fs, hash) ==> k in Keys(ft, hash)
  {
    forall i | 0 <= i < |fs| ensures Keys(fs, hash)[i] in Keys(ft, hash) {
      var c := fs[i].citation;
      SameEntryKey(s, t, c, hash);
      var j :| 0 <= j < |ft| && ft[j].citation == c;
      assert Keys(ft, hash)[j] == Keys(fs, hash)[i];
    }
  }

  lemma {:induction false} ConsistentPermutes(s: seq<Span>, t: seq<Span>)
    requires multiset(s) == multiset(t) && Consistent(s)
    ensures Consistent(t)
  {
    forall i, j | 0 <= i < |t| && 0 <= j < |t| && t[i].citation == t[j].citation
      ensures t[i].lineage == t[j].lineage && t[i].segments == t[j].segments
    {
      assert t[i] in multiset(s) && t[j] in multiset(s);
    }
  }

  /** Fusing any permutation of the input gives the same ordered list of ids, with the same
      scores, videos and start times. */
  lemma {:induction false} FusionIgnoresOrder(s: seq<Span>, t: seq<Span>, fs: seq<Span>, ft: seq<Span>, hash: Citation -> string)
    requires multiset(s) == multiset(t) && Consistent(s) && IsFusion(s, fs, hash) && IsFusion(t, ft, hash)
    ensures Keys(fs, hash) == Keys(ft, hash)
  {
    KeysIncluded(s, t, fs, ft, hash);
    ConsistentPermutes(s, t);
    KeysIncluded(t, s, ft, fs, hash);
    var ks, kt := Keys(fs, hash), Keys(ft, hash);
    BeforeOn(Elements(ks));
    SortedUnique(Before, ks, kt, Elements(ks));
  }

  /** Every id of the input comes out exactly once. */
  lemma {:induction false} EachIdOnce(spans: seq<Span>, fused: seq<Span>, hash: Citation -> string, c: Citation)
    requires IsFusion(spans, fused, hash)
    ensures (exists i :: 0 <= i < |spans| && spans[i].citation == c) <==> exists i :: 0 <= i < |fused| && fused[i].citation == c
    ensures forall i, j :: 0 <= i < j < |fused| ==> fused[i].citation != fused[j].citation
  {
    EntryComesFrom(spans, c);
    forall i, j | 0 <= i < j < |fused| ensures fused[i].citation != fused[j].citation {
      var k, l := KeyOf(fused[i], hash), KeyOf(fused[j], hash);
      assert Before(Keys(fused, hash)[i], Keys(fused, hash)[j]);
      BeforeIsStrict(k, k, l);
    }
  }

  /** The best evidence comes first: scores never rise; equal scores go by video, then by start time,
      then by the text of the id. */
  lemma {:induction false} BestComesFirst(spans: seq<Span>, fused: seq<Span>, hash: Citation -> string, i: nat, j: nat)
    requires IsFusion(spans, fused, hash) && i < j < |fused|
    ensures var a, b := fused[i], fused[j];
      && a.score >= b.score
      && (a.score == b.score ==> a.lineage.video <= b.lineage.video)
      && (a.score == b.score && a.lineage.video == b.lineage.video ==> StartOf(a) <= StartOf(b))
      && (a.score == b.score && a.lineage.video == b.lineage.video && StartOf(a) == StartOf(b) ==> Lex(hash(a.citation), hash(b.citation)))
  {
    assert Before(Keys(fused, hash)[i], Keys(fused, hash)[j]);
  }

  /** A hit of a better rank weighs more, and every hit counts for something. */
  lemma {:induction false} BetterRanksWeighMore(p: Provenance, q: Provenance)
    ensures Weight(p) > 0.0
    ensures 1 <= p.rank < q.rank ==> Weight(p) > Weight(q)
  {
    var a, b := 60.0 + (if p.rank > 1 then p.rank else 1) as real, 60.0 + (if q.rank > 1 then q.rank else 1) as real;
    assert Weight(p) * a == 1.0 && Weight(q) * b == 1.0;
    Inverses(Weight(p), a, Weight(q), b);
  }

  lemma {:induction false} Inverses(x: real, a: real, y: real, b: real)
    requires a > 0.0 && b > 0.0 && x * a == 1.0 && y * b == 1.0
    ensures x > 0.0 && (a < b ==> x > y)
  {
    assert x * b - y * b == x * (b - a);
    assert (x - y) * b == x * (b - a);
  }

  // ---- the program's loop ----------------------------------------------------------------------

  ghost predicate TableOf(spans: seq<Span>, table: map<Citation, Span>, order: seq<Citation>) {
    && (forall c :: c in table <==> Entry(spans, c).Some?)
    && (forall c :: c in table ==> Entry(spans, c) == Some(table[c]))
    && Distinct(order) && (forall c :: c in table <==> c in order)
  }

  /** `fuse_evidence`: a dictionary keyed by citation id, filled in one pass, then sorted. */
  method FuseEvidence(spans: seq<Span>, hash: Citation -> string) returns (fused: seq<Span>)
    requires Injective(hash)
    ensures IsFusion(spans, fused, hash)
  {
    var table: map<Citation, Span> := map[];
    var order: seq<Citation> := [];
    for n := 0 to |spans|
      invariant TableOf(spans[..n], table, order)
    {
      var span := spans[n];
      assert spans[..n + 1][..n] == spans[..n];
      var score := Score(span.provenance);
      if span.citation !in table {
        table := table[span.citation := span.(score := score)];
        order := order + [span.citation];
      } else {
        var existing := table[span.citation];
        table := table[span.citation := existing.(provenance := Unique(existing.provenance + span.provenance),
                                                  parents := Unique(existing.parents + span.parents),
                                                  score := existing.score + score)];
      }
    }
    assert spans[..|spans|] == spans;
    var values := seq(|order|, i requires 0 <= i < |order| && order[i] in table => table[order[i]]);
    fused := SortBy((a, b) => Before(KeyOf(a, hash), KeyOf(b, hash)), values);
    SortedTableIsFusion(spans, table, order, values, hash, (a, b) => Before(KeyOf(a, hash), KeyOf(b, hash)));
  }

  lemma {:induction false} SortedTableIsFusion(spans: seq<Span>, table: map<Citation, Span>, order: seq<Citation>, values: seq<Span>,
                            hash: Citation -> string, less: (Span, Span) -> bool)
    requires Injective(hash) && TableOf(spans, table, order) && |values| == |order|
    requires forall i :: 0 <= i < |order| ==> values[i] == table[order[i]]
    requires forall a, b :: less(a, b) == Before(KeyOf(a, hash), KeyOf(b, hash))
    ensures IsFusion(spans, SortBy(less, values), hash)
  {
    TableEntries(spans, table, order, values);
    ValuesInLine(values, hash, less);
    SortSorts(less, values, Elements(values));
    SortedKeys(SortBy(less, values), hash, less);
    TableCovered(spans, table, order, values, SortBy(less, values));
  }

  lemma {:induction false} TableEntries(spans: seq<Span>, table: map<Citation, Span>, order: seq<Citation>, values: seq<Span>)
    requires TableOf(spans, table, order) && |values| == |order|
    requires forall i :: 0 <= i < |order| ==> values[i] == table[order[i]]
    ensures forall i :: 0 <= i < |order| ==> values[i].citation == order[i]
  {
    forall i | 0 <= i < |values| ensures values[i].citation == order[i] {
      EntryComesFrom(spans, order[i]);
    }
  }

  lemma {:induction false} TableCovered(spans: seq<Span>, table: map<Citation, Span>, order: seq<Citation>, values: seq<Span>, fused: seq<Span>)
    requires TableOf(spans, table, order) && |values| == |order|
    requires forall i :: 0 <= i < |order| ==> values[i] == table[order[i]] && values[i].citation == order[i]
    requires forall x :: x in fused <==> x in values
    ensures forall i :: 0 <= i < |fused| ==> Entry(spans, fused[i].citation) == Some(fused[i])
    ensures forall c :: Entry(spans, c).Some? ==> exists i :: 0 <= i < |fused| && fused[i].citation == c
  {
    forall i | 0 <= i < |fused| ensures Entry(spans, fused[i].citation) == Some(fused[i]) {
      assert fused[i] in values;
    }
    forall c | Entry(spans, c).Some? ensures exists i :: 0 <= i < |fused| && fused[i].citation == c {
      var k :| 0 <= k < |order| && order[k] == c;
      assert values[k] in fused;
    }
  }

  lemma {:induction false} SortedKeys(fused: seq<Span>, hash: Citation -> string, less: (Span, Span) -> bool)
    requires Sorted(less, fused) && forall a, b :: less(a, b) == Before(KeyOf(a, hash), KeyOf(b, hash))
    ensures Sorted(Before, Keys(fused, hash))
  {
    var keys := Keys(fused, hash);
    forall i, j | 0 <= i < j < |keys| ensures Before(keys[i], keys[j]) {
      assert less(fused[i], fused[j]);
    }
  }

  lemma {:induction false} ValuesInLine(values: seq<Span>, hash: Citation -> string, less: (Span, Span) -> bool)
    requires Injective(hash) && forall i, j :: 0 <= i < j < |values| ==> values[i].citation != values[j].citation
    requires forall a, b :: less(a, b) == Before(KeyOf(a, hash), KeyOf(b, hash))
    ensures Distinct(values) && StrictOn(less, Elements(values))
  {
    var dom := Elements(values);
    forall a, b | a in dom && b in dom && a != b ensures KeyOf(a, hash) != KeyOf(b, hash) {
      var i, j :| 0 <= i < |values| && 0 <= j < |values| && values[i] == a && values[j] == b;
      assert i < j || j < i;
    }
    forall a, b, c | a in dom && b in dom && c in dom
      ensures !less(a, a) && (a != b ==> less(a, b) || less(b, a)) && (less(a, b) && less(b, c) ==> less(a, c))
    {
      BeforeIsStrict(KeyOf(a, hash), KeyOf(b, hash), KeyOf(c, hash));
    }
  }
}
