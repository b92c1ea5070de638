/** Sorting by a strict order, and what a strictly sorted sequence is determined by. */
module Orders {
  /** `less` puts the elements of `s` in one line: irreflexive, transitive, and total on them. */
  ghost predicate StrictOn<T(!new)>(less: (T, T) -> bool, s: set<T>) {
    && (forall a :: a in s ==> !less(a, a))
    && (forall a, b :: a in s && b in s && a != b ==> less(a, b) || less(b, a))
    && (forall a, b, c :: a in s && b in s && c in s && less(a, b) && less(b, c) ==> less(a, c))
  }

  ghost predicate Sorted<T(!new)>(less: (T, T) -> bool, s: seq<T>) {
    forall i, j :: 0 <= i < j < |s| ==> less(s[i], s[j])
  }

  ghost function Elements<T>(s: seq<T>): set<T> {
    set x | x in s
  }

  ghost predicate Distinct<T>(s: seq<T>) {
    forall i, j :: 0 <= i < j < |s| ==> s[i] != s[j]
  }

  function InsertBy<T>(less: (T, T) -> bool, x: T, s: seq<T>): seq<T> {
    if s == [] || less(x, s[0]) then [x] + s else [s[0]] + InsertBy(less, x, s[1..])
  }

  /** Python's `sorted`: ascending and stable. */
  function SortBy<T>(less: (T, T) -> bool, s: seq<T>): seq<T> {
    if s == [] then [] else InsertBy(less, s[|s| - 1], SortBy(less, s[..|s| - 1]))
  }

  lemma {:induction false} InsertElements<T>(less: (T, T) -> bool, x: T, s: seq<T>)
    ensures multiset(InsertBy(less, x, s)) == multiset(s) + multiset{x}
    ensures forall y :: y in InsertBy(less, x, s) <==> y in s || y == x
    decreases |s|
  {
    if s != [] && !less(x, s[0]) {
      InsertElements(less, x, s[1..]);
      assert s == [s[0]] + s[1..];
    }
  }

  lemma {:induction false} InsertSorts<T(!new)>(less: (T, T) -> bool, x: T, s: seq<T>, dom: set<T>)
    requires StrictOn(less, dom) && x in dom && (forall y :: y in s ==> y in dom && y != x) && Sorted(less, s)
    ensures Sorted(less, InsertBy(less, x, s))
    decreases |s|
  {
    if s != [] {
      assert s[0] in s;
      if less(x, s[0]) {
        forall j | 0 <= j < |s| ensures less(x, s[j]) {
          assert s[j] in s;
        }
      } else {
        assert Sorted(less, s[1..]);
        InsertSorts(less, x, s[1..], dom);
        InsertElements(less, x, s[1..]);
        FirstStays(less, x, s);
      }
    }
  }

  lemma {:induction false} FirstStays<T(!new)>(less: (T, T) -> bool, x: T, s: seq<T>)
    requires s != [] && less(s[0], x) && Sorted(less, s)
    requires forall y :: y in InsertBy(less, x, s[1..]) <==> y in s[1..] || y == x
    ensures forall j :: 0 <= j < |InsertBy(less, x, s[1..])| ==> less(s[0], InsertBy(less, x, s[1..])[j])
  {
    var rest := InsertBy(less, x, s[1..]);
    forall j | 0 <= j < |rest| ensures less(s[0], rest[j]) {
      assert rest[j] in rest;
      if rest[j] != x {
        var k :| 0 <= k < |s[1..]| && s[1..][k] == rest[j];
        assert less(s[0], s[k + 1]);
      }
    }
  }

  lemma {:induction false} SortSorts<T(!new)>(less: (T, T) -> bool, s: seq<T>, dom: set<T>)
    requires StrictOn(less, dom) && Distinct(s) && forall x :: x in s ==> x in dom
    ensures Sorted(less, SortBy(less, s)) && multiset(SortBy(less, s)) == multiset(s)
    ensures forall x :: x in SortBy(less, s) <==> x in s
    decreases |s|
  {
    if s != [] {
      var init, x := s[..|s| - 1], s[|s| - 1];
      assert s == init + [x];
      SortSorts(less, init, dom);
      InsertSorts(less, x, SortBy(less, init), dom);
      InsertElements(less, x, SortBy(less, init));
    }
  }

  /** A strictly sorted sequence is determined by its elements. */
  lemma {:induction false} SortedUnique<T(!new)>(less: (T, T) -> bool, s: seq<T>, t: seq<T>, dom: set<T>)
    requires StrictOn(less, dom) && Sorted(less, s) && Sorted(less, t)
    requires (forall x :: x in s <==> x in t) && forall x :: x in s ==> x in dom
    ensures s == t
    decreases |s|
  {
    assert |t| > 0 ==> t[0] in s;
    if s != [] {
      assert s[0] in s && s[0] in t;
      assert t != [] && t[0] in t && t[0] in s;
      FirstIsLeast(less, s, t, dom);
      TailElements(less, s, dom);
      TailElements(less, t, dom);
      SortedUnique(less, s[1..], t[1..], dom);
      assert s == [s[0]] + s[1..] && t == [t[0]] + t[1..];
    }
  }

  lemma {:induction false} FirstIsLeast<T(!new)>(less: (T, T) -> bool, s: seq<T>, t: seq<T>, dom: set<T>)
    requires StrictOn(less, dom) && Sorted(less, s) && Sorted(less, t) && s != [] && t != []
    requires s[0] in t && t[0] in s && s[0] in dom && t[0] in dom
    ensures s[0] == t[0]
  {
    var i :| 0 <= i < |t| && t[i] == s[0];
    var j :| 0 <= j < |s| && s[j] == t[0];
    if i > 0 && j > 0 {
      assert false;
    }
  }

  lemma {:induction false} TailElements<T(!new)>(less: (T, T) -> bool, s: seq<T>, dom: set<T>)
    requires StrictOn(less, dom) && Sorted(less, s) && s != [] && forall x :: x in s ==> x in dom
    ensures forall x :: x in s[1..] <==> x in s && x != s[0]
  {
    assert s == [s[0]] + s[1..];
    forall x | x in s[1..] ensures x != s[0] {
      var k :| 0 <= k < |s[1..]| && s[1..][k] == x;
      assert less(s[0], s[k + 1]) && s[0] in s;
    }
  }

  /** The elements with fewer than `n` elements before them. */
  ghost function TopN<T(!new)>(less: (T, T) -> bool, dom: set<T>, n: nat): set<T> {
    set x | x in dom && |set y | y in dom && less(y, x)| < n
  }

  lemma {:induction false} DistinctCount<T>(s: seq<T>)
    requires Distinct(s)
    ensures |Elements(s)| == |s|
  {
    if s != [] {
      var init := s[..|s| - 1];
      assert s == init + [s[|s| - 1]];
      DistinctCount(init);
      assert Elements(s) == Elements(init) + {s[|s| - 1]};
    }
  }

  lemma {:induction false} SortedIsDistinct<T(!new)>(less: (T, T) -> bool, s: seq<T>)
    requires StrictOn(less, Elements(s)) && Sorted(less, s)
    ensures Distinct(s)
  {
    forall i, j | 0 <= i < j < |s| ensures s[i] != s[j] {
      assert s[i] in Elements(s);
    }
  }

  lemma {:induction false} RankOfSorted<T(!new)>(less: (T, T) -> bool, s: seq<T>, i: nat)
    requires StrictOn(less, Elements(s)) && Sorted(less, s) && i < |s|
    ensures |set y | y in Elements(s) && less(y, s[i])| == i
  {
    var before := set y | y in Elements(s) && less(y, s[i]);
    forall y ensures y in before <==> y in Elements(s[..i]) {
      if y in before {
        var k :| 0 <= k < |s| && s[k] == y;
        NotBefore(less, s, i, k);
        assert s[..i][k] == y;
      }
    }
    SortedIsDistinct(less, s);
    DistinctCount(s[..i]);
    assert before == Elements(s[..i]);
  }

  lemma {:induction false} NotBefore<T(!new)>(less: (T, T) -> bool, s: seq<T>, i: nat, k: nat)
    requires StrictOn(less, Elements(s)) && Sorted(less, s) && i < |s| && k < |s| && less(s[k], s[i])
    ensures k < i
  {
    assert s[i] in Elements(s) && s[k] in Elements(s);
  }

  /** A prefix of a sorted sequence holds the elements of least rank. */
  lemma {:induction false} PrefixIsTopN<T(!new)>(less: (T, T) -> bool, s: seq<T>, n: nat)
    requires StrictOn(less, Elements(s)) && Sorted(less, s)
    ensures Elements(s[..if n < |s| then n else |s|]) == TopN(less, Elements(s), n)
  {
    var m := if n < |s| then n else |s|;
    forall x ensures x in Elements(s[..m]) <==> x in TopN(less, Elements(s), n) {
      if x in Elements(s) {
        var i :| 0 <= i < |s| && s[i] == x;
        RankOfSorted(less, s, i);
        SortedIsDistinct(less, s);
        assert i < m ==> s[..m][i] == x;
      }
    }
  }

  lemma {:induction false} Enumerated<T(!new)>(dom: set<T>) returns (s: seq<T>)
    ensures Distinct(s) && Elements(s) == dom
    decreases |dom|
  {
    s := [];
    if dom != {} {
      var x :| x in dom;
      var rest := Enumerated(dom - {x});
      s := rest + [x];
      forall y ensures y in s <==> y in dom {
        assert y in rest <==> y in Elements(rest);
      }
    }
  }

  /** As many elements are taken as there are, up to `n`; none that is left out comes before one taken. */
  lemma {:induction false} TopNTakes<T(!new)>(less: (T, T) -> bool, dom: set<T>, n: nat)
    requires StrictOn(less, dom)
    ensures TopN(less, dom, n) <= dom && |TopN(less, dom, n)| == if n < |dom| then n else |dom|
    ensures forall x, y :: x in TopN(less, dom, n) && y in dom && y !in TopN(less, dom, n) ==> less(x, y)
  {
    var list := Enumerated(dom);
    SortSorts(less, list, dom);
    var sorted := SortBy(less, list);
    assert Elements(sorted) == Elements(list);
    PrefixIsTopN(less, sorted, n);
    SortedIsDistinct(less, sorted);
    DistinctCount(sorted);
    DistinctCount(sorted[..if n < |sorted| then n else |sorted|]);
    forall x, y | x in TopN(less, dom, n) && y in dom && y !in TopN(less, dom, n) ensures less(x, y) {
      PrefixComesFirst(less, sorted, n, x, y);
    }
  }

  lemma {:induction false} PrefixComesFirst<T(!new)>(less: (T, T) -> bool, s: seq<T>, n: nat, x: T, y: T)
    requires Sorted(less, s) && x in s[..if n < |s| then n else |s|] && y in s && y !in s[..if n < |s| then n else |s|]
    ensures less(x, y)
  {
    var m := if n < |s| then n else |s|;
    var i :| 0 <= i < m && s[..m][i] == x;
    var j :| 0 <= j < |s| && s[j] == y;
    assert forall l :: 0 <= l < m ==> s[l] in s[..m];
  }

  /** Python's order on strings: the first differing character decides, else the shorter is less. */
  predicate Lex(a: string, b: string) {
    if a == [] then b != []
    else if b == [] then false
    else if a[0] == b[0] then Lex(a[1..], b[1..])
    else a[0] < b[0]
  }

  lemma {:induction false} LexTotal(a: string, b: string)
    ensures !Lex(a, a) && (a != b ==> Lex(a, b) || Lex(b, a))
    decreases |a|
  {
    if a != [] {
      if b != [] {
        LexTotal(a[1..], b[1..]);
        assert a == [a[0]] + a[1..] && b == [b[0]] + b[1..];
      } else {
        LexTotal(a[1..], a[1..]);
      }
    }
  }

  lemma {:induction false} LexTransitive(a: string, b: string, c: string)
    requires Lex(a, b) && Lex(b, c)
    ensures Lex(a, c)
    decreases |a|
  {
    if a != [] && a[0] == b[0] && b[0] == c[0] {
      LexTransitive(a[1..], b[1..], c[1..]);
    }
  }
}
