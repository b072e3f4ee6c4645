/** History pages: `listMessages` and the walk along `nextCursor`. */
module History {
  import opened Common

  // ------------------------------------------------------------------ one page

  /** A set of numbers, largest first. */
  ghost function Desc(s: set<nat>): (d: seq<nat>)
    ensures |d| == |s|
  {
    if s == {} then [] else [MaxOf(s)] + Desc(s - {MaxOf(s)})
  }

  predicate Falling(d: seq<nat>) {
    forall i, j :: 0 <= i < j < |d| ==> d[i] > d[j]
  }

  lemma FallingAppend(d: seq<nat>, e: seq<nat>)
    requires Falling(d) && Falling(e)
    requires forall p, q :: p in d && q in e ==> p > q
    ensures Falling(d + e)
    ensures forall q :: q in d + e <==> q in d || q in e
  {
    assert forall i :: 0 <= i < |d| ==> d[i] in d;
    assert forall i :: 0 <= i < |e| ==> e[i] in e;
  }

  lemma {:induction false} DescIs(s: set<nat>)
    ensures Falling(Desc(s))
    ensures forall q :: q in Desc(s) <==> q in s
  {
    if s != {} {
      var m := MaxOf(s);
      DescIs(s - {m});
      FallingAppend([m], Desc(s - {m}));
    }
  }

  lemma DescMembers(s: set<nat>)
    ensures forall i :: 0 <= i < |Desc(s)| ==> Desc(s)[i] in s
  {
  }

  lemma EmptyTogether(d: seq<nat>, e: seq<nat>)
    requires forall q :: q in d <==> q in e
    ensures d == [] <==> e == []
  {
    if d != [] { assert d[0] in d; }
    if e != [] { assert e[0] in e; }
  }

  /** A falling sequence is determined by its elements. */
  lemma {:induction false} FallingUnique(d: seq<nat>, e: seq<nat>)
    requires Falling(d) && Falling(e)
    requires forall q :: q in d <==> q in e
    ensures d == e
  {
    EmptyTogether(d, e);
    if d != [] {
      assert d[0] in e && e[0] in d && d[0] == e[0];
      forall q ensures q in d[1..] <==> q in e[1..] {
        assert q in d <==> q == d[0] || q in d[1..];
        assert q in e <==> q == e[0] || q in e[1..];
      }
      FallingUnique(d[1..], e[1..]);
    }
  }

  /** `where: { seq: { lt: cursor } }`. */
  function Below(s: set<nat>, cursor: Option<int>): set<nat> {
    set q | q in s && (cursor.None? || q < cursor.value)
  }

  function Min(a: nat, b: nat): nat {
    if a <= b then a else b
  }

  datatype Page = Page(items: seq<nat>, nextCursor: Option<int>)

  /** The page: the `limit` largest numbers below the cursor, and the last of them if more remain. */
  ghost function PageOf(s: set<nat>, cursor: Option<int>, limit: nat): Page
    requires limit >= 1
  {
    var rows := Desc(Below(s, cursor));
    if |rows| > limit then Page(rows[..limit], Some(rows[limit - 1])) else Page(rows, None)
  }

  /** Some number below the cursor is older than everything on the page. */
  ghost predicate MoreRemains(s: set<nat>, cursor: Option<int>, items: seq<nat>) {
    exists q :: q in Below(s, cursor) && OlderThan(q, items)
  }

  predicate OlderThan(q: nat, items: seq<nat>) {
    forall p :: p in items ==> q < p
  }

  /**
   * The whole stretch from the next cursor, or from the beginning, up to the cursor, newest first; there
   * is a next cursor exactly if more remains.
   */
  ghost predicate IsPage(s: set<nat>, cursor: Option<int>, limit: nat, page: Page) {
    && Falling(page.items) && |page.items| <= limit
    && (forall q :: q in page.items <==>
          q in Below(s, cursor) && (page.nextCursor.None? || q >= page.nextCursor.value))
    && (page.nextCursor.Some? ==>
          0 < |page.items| == limit && page.nextCursor.value == page.items[limit - 1] && page.items[limit - 1] in s)
    && (page.nextCursor.Some? <==> MoreRemains(s, cursor, page.items))
  }

  /** The first `n` of a falling sequence, the next of which is older than all of them. */
  lemma CutFalling(d: seq<nat>, n: nat)
    requires Falling(d) && 0 < n < |d|
    ensures forall q :: q in d[..n] <==> q in d && q >= d[n - 1]
    ensures d[n - 1] in d && d[n] in d && OlderThan(d[n], d[..n])
  {
    forall q ensures q in d[..n] <==> q in d && q >= d[n - 1] {
      if q in d && q >= d[n - 1] {
        var i :| 0 <= i < |d| && d[i] == q;
        assert i < n;
      }
    }
  }

  lemma CutIsPage(s: set<nat>, cursor: Option<int>, limit: nat, rows: seq<nat>)
    requires limit >= 1 && Falling(rows) && forall q :: q in rows <==> q in Below(s, cursor)
    ensures IsPage(s, cursor, limit,
                   if |rows| > limit then Page(rows[..limit], Some(rows[limit - 1])) else Page(rows, None))
  {
    if |rows| > limit {
      CutFalling(rows, limit);
    } else {
      forall q | q in Below(s, cursor) ensures !OlderThan(q, rows) { assert q in rows; }
    }
  }

  lemma PageIsInterval(s: set<nat>, cursor: Option<int>, limit: nat)
    requires limit >= 1
    ensures IsPage(s, cursor, limit, PageOf(s, cursor, limit))
  {
    DescIs(Below(s, cursor));
    CutIsPage(s, cursor, limit, Desc(Below(s, cursor)));
  }

  // ------------------------------------------------------------------ the walk

  function CursorOf(pages: seq<Page>, i: nat): Option<int>
    requires i <= |pages|
  {
    if i == 0 then None else pages[i - 1].nextCursor
  }

  ghost predicate PageFits(s: set<nat>, cursor: Option<int>, limit: nat, page: Page) {
    limit >= 1 && page == PageOf(s, cursor, limit)
  }

  /** Page `i` is what the room shows at its cursor, the next cursor of the page before. */
  ghost predicate PageAt(tables: seq<set<nat>>, limits: seq<nat>, pages: seq<Page>, i: nat)
    requires i < |tables| == |limits| == |pages|
  {
    PageFits(tables[i], CursorOf(pages, i), limits[i], pages[i])
  }

  /**
   * A client follows `nextCursor`: page `i` is read from the room as it is then, and rows are never
   * removed between pages. Limits may vary.
   */
  ghost predicate IsWalk(tables: seq<set<nat>>, limits: seq<nat>, pages: seq<Page>) {
    && |tables| == |limits| == |pages| >= 1
    && (forall i, j :: 0 <= i <= j < |tables| ==> tables[i] <= tables[j])
    && (forall i :: 0 <= i < |pages| - 1 ==> pages[i].nextCursor.Some?)
    && (forall i :: 0 <= i < |pages| ==> PageAt(tables, limits, pages, i))
  }

  ghost function Shown(pages: seq<Page>): seq<nat> {
    if pages == [] then [] else Shown(pages[..|pages| - 1]) + pages[|pages| - 1].items
  }

  lemma WalkPrefix(tables: seq<set<nat>>, limits: seq<nat>, pages: seq<Page>)
    requires IsWalk(tables, limits, pages) && |pages| > 1
    ensures var n := |pages| - 1; IsWalk(tables[..n], limits[..n], pages[..n])
  {
    var n := |pages| - 1;
    forall i | 0 <= i < n
      ensures PageAt(tables[..n], limits[..n], pages[..n], i)
    {
      assert PageAt(tables, limits, pages, i);
    }
  }

  /** `shown` falls to `next`, comes from `now`, and has all of `base` that is not below `next`. */
  ghost predicate ShownOk(base: set<nat>, now: set<nat>, shown: seq<nat>, next: Option<int>) {
    && Falling(shown)
    && (forall q :: q in shown ==> q in now && (next.None? || q >= next.value))
    && (forall q :: q in base && (next.None? || q >= next.value) ==> q in shown)
  }

  lemma OnePageMore(base: set<nat>, prev: set<nat>, shown: seq<nat>, cursor: Option<int>, s: set<nat>, limit: nat,
                    page: Page)
    requires base <= s && prev <= s && IsPage(s, cursor, limit, page)
    requires if cursor.None? then shown == [] else ShownOk(base, prev, shown, cursor)
    ensures ShownOk(base, s, shown + page.items, page.nextCursor)
  {
    FallingAppend(shown, page.items);
    if page.nextCursor.Some? { assert page.items[limit - 1] in page.items; }
  }

  lemma PageOfWalk(tables: seq<set<nat>>, limits: seq<nat>, pages: seq<Page>, i: nat)
    requires IsWalk(tables, limits, pages) && i < |pages|
    ensures IsPage(tables[i], CursorOf(pages, i), limits[i], pages[i])
  {
    assert PageAt(tables, limits, pages, i);
    PageIsInterval(tables[i], CursorOf(pages, i), limits[i]);
  }

  /** What has been shown so far: falling, down to the last cursor, missing nothing of the first table. */
  lemma {:induction false} WalkSoFar(tables: seq<set<nat>>, limits: seq<nat>, pages: seq<Page>)
    requires IsWalk(tables, limits, pages)
    ensures ShownOk(tables[0], tables[|tables| - 1], Shown(pages), pages[|pages| - 1].nextCursor)
    decreases |pages|
  {
    var n := |pages| - 1;
    var cursor := CursorOf(pages, n);
    PageOfWalk(tables, limits, pages, n);
    if n == 0 {
      OnePageMore(tables[0], {}, [], cursor, tables[0], limits[0], pages[0]);
      assert Shown(pages[..0]) == [] && Shown(pages) == [] + pages[0].items;
    } else {
      WalkPrefix(tables, limits, pages);
      WalkSoFar(tables[..n], limits[..n], pages[..n]);
      assert pages[..n][n - 1] == pages[n - 1] && tables[..n][n - 1] == tables[n - 1];
      OnePageMore(tables[0], tables[n - 1], Shown(pages[..n]), cursor, tables[n], limits[n], pages[n]);
    }
  }

  predicate Once(d: seq<nat>, q: nat) {
    && q in d
    && forall i, j :: 0 <= i < |d| && 0 <= j < |d| && d[i] == q && d[j] == q ==> i == j
  }

  /**
   * Under any inserts and unsends between the pages, the whole walk shows numbers in strictly falling
   * order, so none twice, and once the cursor is null it has shown everything that was there at the
   * start exactly once.
   */
  lemma WalkShowsEverything(tables: seq<set<nat>>, limits: seq<nat>, pages: seq<Page>)
    requires IsWalk(tables, limits, pages)
    ensures Falling(Shown(pages))
    ensures pages[|pages| - 1].nextCursor.None? ==> forall q :: q in tables[0] ==> Once(Shown(pages), q)
  {
    WalkSoFar(tables, limits, pages);
  }

  /** If nothing is inserted during the walk, it shows the log itself, newest first. */
  lemma QuietWalkIsTheLog(tables: seq<set<nat>>, limits: seq<nat>, pages: seq<Page>)
    requires IsWalk(tables, limits, pages) && pages[|pages| - 1].nextCursor.None?
    requires tables[|tables| - 1] == tables[0]
    ensures Shown(pages) == Desc(tables[0])
  {
    WalkSoFar(tables, limits, pages);
    DescIs(tables[0]);
    FallingUnique(Shown(pages), Desc(tables[0]));
  }

  /** What a next cursor promises: there are numbers below it. */
  lemma CursorHasMore(s: set<nat>, cursor: Option<int>, limit: nat, page: Page)
    requires IsPage(s, cursor, limit, page) && page.nextCursor.Some?
    ensures Below(s, page.nextCursor) != {}
  {
    var q :| q in Below(s, cursor) && OlderThan(q, page.items);
    assert page.items[limit - 1] in page.items;
    assert q in Below(s, page.nextCursor);
  }

  lemma NothingShownIff(s: set<nat>, cursor: Option<int>, limit: nat, page: Page)
    requires IsPage(s, cursor, limit, page)
    ensures page.items == [] <==> Below(s, cursor) == {}
  {
    if page.items == [] {
      assert forall q :: q in Below(s, cursor) ==> OlderThan(q, page.items);
    } else {
      assert page.items[0] in page.items;
    }
  }

  /**
   * On a quiet room every page but the last is full, and the last one is not empty unless the log is:
   * a cursor is handed out only if there is something behind it.
   */
  lemma QuietPagesAreFull(tables: seq<set<nat>>, limits: seq<nat>, pages: seq<Page>, i: nat)
    requires IsWalk(tables, limits, pages) && tables[|tables| - 1] == tables[0] && i < |pages|
    ensures i < |pages| - 1 ==> |pages[i].items| == limits[i]
    ensures pages[i].items == [] <==> i == 0 && tables[0] == {}
  {
    var s := tables[0];
    assert s <= tables[i] <= tables[|tables| - 1];
    PageOfWalk(tables, limits, pages, i);
    NothingShownIff(s, CursorOf(pages, i), limits[i], pages[i]);
    if i > 0 {
      assert s <= tables[i - 1] <= tables[|tables| - 1];
      PageOfWalk(tables, limits, pages, i - 1);
      CursorHasMore(s, CursorOf(pages, i - 1), limits[i - 1], pages[i - 1]);
    } else {
      assert Below(s, None) == s;
    }
  }

  /** Cursors fall, so a walk has at most one page more than the newest number it started from. */
  lemma {:induction false} WalkEnds(tables: seq<set<nat>>, limits: seq<nat>, pages: seq<Page>)
    requires IsWalk(tables, limits, pages)
    ensures pages[|pages| - 1].nextCursor.Some? ==>
      && 0 <= pages[|pages| - 1].nextCursor.value
      && |pages| + pages[|pages| - 1].nextCursor.value <= MaxOf(tables[0]) + 1
    ensures |pages| <= MaxOf(tables[0]) + 2
    decreases |pages|
  {
    var n := |pages| - 1;
    var cursor := CursorOf(pages, n);
    PageOfWalk(tables, limits, pages, n);
    if n > 0 {
      WalkPrefix(tables, limits, pages);
      WalkEnds(tables[..n], limits[..n], pages[..n]);
      assert pages[..n][n - 1].nextCursor == cursor;
    }
    if pages[n].nextCursor.Some? {
      var q := pages[n].items[limits[n] - 1];
      assert q in pages[n].items;
    }
  }
}
