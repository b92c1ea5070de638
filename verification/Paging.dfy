/** Keyset pages over a sorted listing: `_page_video_cards` of `src/shiliu/db.py`, once the rows
    are selected. */
module Paging {
  import opened Wrappers
  import opened Orders

  /** The order key of a card; `place` is the negated snapshot position, `source` the negated id. */
  datatype Key = Key(time: int, place: int, discovered: int, id: int, source: int)

  /** Row comparison `a > b`: cards are listed in this order. */
  predicate Above(a: Key, b: Key) {
    if a.time != b.time then a.time > b.time
    else if a.place != b.place then a.place > b.place
    else if a.discovered != b.discovered then a.discovered > b.discovered
    else if a.id != b.id then a.id > b.id
    else a.source > b.source
  }

  lemma {:induction false} AboveIsStrict(dom: set<Key>)
    ensures StrictOn(Above, dom)
  {
  }

  ghost predicate Listed(list: seq<Key>) {
    Sorted(Above, list)
  }

  datatype Page = Page(items: seq<Key>, hasPrevious: bool, hasNext: bool)

  /** `WHERE key < cursor ORDER BY key DESC`. */
  function Below(list: seq<Key>, cursor: Key): seq<Key> {
    if list == [] then []
    else (if Above(cursor, list[0]) then [list[0]] else []) + Below(list[1..], cursor)
  }

  /** `WHERE key > cursor ORDER BY key ASC`. */
  function AboveUp(list: seq<Key>, cursor: Key): seq<Key> {
    if list == [] then []
    else AboveUp(list[1..], cursor) + (if Above(list[0], cursor) then [list[0]] else [])
  }

  function Limit(rows: seq<Key>, n: nat): seq<Key> {
    if |rows| <= n then rows else rows[..n]
  }

  function Reverse(s: seq<Key>): (r: seq<Key>)
    ensures |r| == |s| && forall i :: 0 <= i < |r| ==> r[i] == s[|s| - 1 - i]
  {
    seq(|s|, i requires 0 <= i < |s| => s[|s| - 1 - i])
  }

  /** The first page, and every page after a cursor. */
  function PageAfter(list: seq<Key>, after: Option<Key>, size: nat): Page {
    var values := Limit(if after.Some? then Below(list, after.value) else list, size + 1);
    Page(Limit(values, size), after.Some?, |values| > size)
  }

  function PageBefore(list: seq<Key>, before: Key, size: nat): Page {
    var values := Limit(AboveUp(list, before), size + 1);
    Page(Reverse(Limit(values, size)), |values| > size, true)
  }

  lemma {:induction false} TailListed(list: seq<Key>)
    requires Listed(list) && list != []
    ensures Listed(list[1..])
  {
  }

  lemma {:induction false} AllBelow(list: seq<Key>, cursor: Key)
    requires forall i :: 0 <= i < |list| ==> Above(cursor, list[i])
    ensures Below(list, cursor) == list && AboveUp(list, cursor) == []
    decreases |list|
  {
    if list != [] {
      assert Above(cursor, list[0]) && !Above(list[0], cursor);
      AllBelow(list[1..], cursor);
    }
  }

  /** A cursor that is a listed row cuts the listing at that row. */
  lemma {:induction false} CursorCuts(list: seq<Key>, i: nat)
    requires Listed(list) && i < |list|
    ensures Below(list, list[i]) == list[i + 1..] && AboveUp(list, list[i]) == Reverse(list[..i])
    decreases |list|
  {
    var tail := list[1..];
    TailListed(list);
    if i == 0 {
      AllBelow(tail, list[0]);
    } else {
      CursorCuts(tail, i - 1);
      assert tail[i - 1] == list[i] && tail[i..] == list[i + 1..];
      assert Above(list[0], list[i]);
      assert Reverse(tail[..i - 1]) + [list[0]] == Reverse(list[..i]);
    }
  }

  function LastOf(page: Page): Option<Key> {
    if page.items == [] then None else Some(page.items[|page.items| - 1])
  }

  /** The cursor the n-th page is asked for with: the last row of the page before it. */
  function CursorAt(pages: seq<Page>, n: nat): Option<Key>
    requires n <= |pages|
  {
    if n == 0 then None else LastOf(pages[n - 1])
  }

  /** Following `after` cursors from the start, for as long as a page follows. */
  ghost predicate Walk(list: seq<Key>, size: nat, pages: seq<Page>) {
    && (forall i {:trigger CursorAt(pages, i)} :: 0 <= i < |pages| ==> pages[i] == PageAfter(list, CursorAt(pages, i), size))
    && (forall i :: 0 <= i < |pages| - 1 ==> pages[i].hasNext)
  }

  /** Where the n-th page starts. */
  function Offset(n: nat, size: nat): (r: nat)
    ensures size > 0 ==> r >= n
  {
    if n == 0 then 0 else Offset(n - 1, size) + size
  }

  function Block(list: seq<Key>, at: nat, size: nat): seq<Key>
    requires at <= |list|
  {
    if at + size < |list| then list[at..at + size] else list[at..]
  }

  lemma {:induction false} FirstPage(list: seq<Key>, size: nat)
    ensures PageAfter(list, None, size).items == Block(list, 0, size)
    ensures PageAfter(list, None, size).hasNext <==> size < |list|
  {
    var values := Limit(list, size + 1);
    assert |values| > size ==> values[..size] == list[..size];
  }

  lemma {:induction false} NextPage(list: seq<Key>, at: nat, size: nat)
    requires Listed(list) && 0 < at <= |list|
    ensures var page := PageAfter(list, Some(list[at - 1]), size);
      page.items == Block(list, at, size) && (page.hasNext <==> at + size < |list|)
  {
    CursorCuts(list, at - 1);
    var rest := list[at..];
    var values := Limit(rest, size + 1);
    assert |values| > size ==> values[..size] == list[at..at + size];
  }

  /** The n-th page holds the n-th block of the listing, and `hasNext` says exactly whether
      anything follows it. */
  lemma {:induction false} PageIsBlock(list: seq<Key>, size: nat, pages: seq<Page>, n: nat)
    requires Listed(list) && size > 0 && Walk(list, size, pages) && n < |pages|
    ensures Offset(n, size) <= |list| && pages[n].items == Block(list, Offset(n, size), size)
    ensures pages[n].hasNext <==> Offset(n, size) + size < |list|
  {
    hide PageAfter, Listed;
    assert pages[n] == PageAfter(list, CursorAt(pages, n), size);
    if n == 0 {
      FirstPage(list, size);
    } else {
      var at := Offset(n, size);
      PageIsBlock(list, size, pages, n - 1);
      FullBlock(list, Offset(n - 1, size), size);
      NextPage(list, at, size);
    }
  }

  lemma {:induction false} FullBlock(list: seq<Key>, at: nat, size: nat)
    requires at + size < |list| && size > 0
    ensures var block := Block(list, at, size); block != [] && block[|block| - 1] == list[at + size - 1]
  {
  }

  function Items(pages: seq<Page>): seq<Key> {
    if pages == [] then [] else Items(pages[..|pages| - 1]) + pages[|pages| - 1].items
  }

  lemma {:induction false} ItemsSnoc(pages: seq<Page>, n: nat)
    requires n < |pages|
    ensures Items(pages[..n + 1]) == (if n == 0 then [] else Items(pages[..n])) + pages[n].items
  {
    assert pages[..n + 1][..n] == pages[..n];
  }

  lemma {:induction false} WalkReadsPrefix(list: seq<Key>, size: nat, pages: seq<Page>, n: nat)
    requires Listed(list) && size > 0 && Walk(list, size, pages) && n < |pages|
    ensures Offset(n, size) <= |list|
    ensures Items(pages[..n + 1]) == list[..Offset(n, size)] + Block(list, Offset(n, size), size)
  {
    hide PageAfter, Listed, Block, Items;
    PageIsBlock(list, size, pages, n);
    ItemsSnoc(pages, n);
    if n == 0 {
      assert list[..Offset(n, size)] == [];
    } else {
      PageIsBlock(list, size, pages, n - 1);
      WalkReadsPrefix(list, size, pages, n - 1);
      BlocksJoin(list, Offset(n - 1, size), size);
    }
  }

  lemma {:induction false} BlocksJoin(list: seq<Key>, at: nat, size: nat)
    requires at + size <= |list|
    ensures list[..at] + Block(list, at, size) == list[..at + size]
  {
  }

  /** Following `after` cursors until no page follows reads exactly the unpaged list, each card once
      and in order, in at most one page more than there are cards. */
  lemma {:induction false} WalkReadsAll(list: seq<Key>, size: nat, pages: seq<Page>)
    requires Listed(list) && size > 0 && pages != [] && Walk(list, size, pages)
    ensures !pages[|pages| - 1].hasNext ==> Items(pages) == list
    ensures |pages| <= |list| + 1
  {
    var n := |pages| - 1;
    var at := Offset(n, size);
    assert at <= |list| && (pages[n].hasNext <==> at + size < |list|) by {
      PageIsBlock(list, size, pages, n);
    }
    assert Items(pages) == list[..at] + Block(list, at, size) by {
      WalkReadsPrefix(list, size, pages, n);
      assert pages[..n + 1] == pages;
    }
    LastBlock(list, at, size);
  }

  lemma {:induction false} LastBlock(list: seq<Key>, at: nat, size: nat)
    requires at <= |list|
    ensures at + size >= |list| ==> list[..at] + Block(list, at, size) == list
  {
    assert list[..at] + list[at..] == list;
  }

  /** The walk can go on for as long as a page follows. */
  lemma {:induction false} WalkGoesOn(list: seq<Key>, size: nat, pages: seq<Page>, next: Page)
    requires pages != [] && Walk(list, size, pages) && pages[|pages| - 1].hasNext
    requires next == PageAfter(list, CursorAt(pages, |pages|), size)
    ensures Walk(list, size, pages + [next])
  {
    var more := pages + [next];
    forall i {:trigger CursorAt(more, i)} | 0 <= i < |more| ensures more[i] == PageAfter(list, CursorAt(more, i), size) {
      SameCursor(pages, next, i);
      if i < |pages| {
        assert pages[i] == PageAfter(list, CursorAt(pages, i), size);
      }
    }
  }

  lemma {:induction false} SameCursor(pages: seq<Page>, next: Page, i: nat)
    requires i <= |pages|
    ensures CursorAt(pages + [next], i) == CursorAt(pages, i)
  {
  }

  /** The page before a row that has `at` rows above it. */
  lemma {:induction false} PageBack(list: seq<Key>, at: nat, size: nat)
    requires Listed(list) && size <= at < |list|
    ensures var back := PageBefore(list, list[at], size);
      back.items == list[at - size..at] && (back.hasPrevious <==> at > size)
  {
    CursorCuts(list, at);
    var up := Reverse(list[..at]);
    var values := Limit(up, size + 1);
    assert Limit(values, size) == up[..size];
    assert Reverse(up[..size]) == list[at - size..at];
  }

  /** The `before` page of a later page's first row is the page that came before it, and its
      `hasPrevious` says exactly whether anything precedes it. */
  lemma {:induction false} BeforeGoesBack(list: seq<Key>, size: nat, pages: seq<Page>, n: nat)
    requires Listed(list) && size > 0 && Walk(list, size, pages) && 0 < n < |pages|
    ensures pages[n].items != []
    ensures var back := PageBefore(list, pages[n].items[0], size);
      back.items == pages[n - 1].items && (back.hasPrevious <==> n > 1) && back.hasNext
  {
    var at := Offset(n, size);
    PageIsBlock(list, size, pages, n);
    PageIsBlock(list, size, pages, n - 1);
    assert pages[n - 1].hasNext;
    assert pages[n].items[0] == list[at];
    PageBack(list, at, size);
  }
}
