/** Keyset pagination over (createdAt, id), newest first, with a cursor that carries whole milliseconds. */
module Keyset {
  import opened Kernel

  /** The position of a row: its stored instant in microseconds, and its identifier. */
  datatype Key = Key(at: int, id: Id)

  /** What a page hands to the next: the last row's instant in milliseconds, and its identifier. */
  datatype Cursor = Cursor(createdAtMs: int, id: Id)

  /** `a` is listed before `b`. */
  predicate Before(a: Key, b: Key) {
    a.at > b.at || (a.at == b.at && a.id > b.id)
  }

  function CursorOf(k: Key): Cursor {
    Cursor(k.at / 1000, k.id)
  }

  /** The cursor clause of the query. */
  predicate Admits(c: Option<Cursor>, k: Key) {
    c.None? || k.at < c.value.createdAtMs * 1000 || (k.at == c.value.createdAtMs * 1000 && k.id < c.value.id)
  }

  function Admitted(table: set<Key>, c: Option<Cursor>): set<Key> {
    set k | k in table && Admits(c, k)
  }

  predicate Descends(xs: seq<Key>) {
    forall i, j :: 0 <= i < j < |xs| ==> Before(xs[i], xs[j])
  }

  /** The rows of a table in listing order, as the query's ORDER BY yields them. */
  predicate IsListing(table: set<Key>, xs: seq<Key>) {
    Descends(xs) && (forall k :: k in xs ==> k in table) && (forall k :: k in table ==> k in xs)
  }

  // ---------------------------------------------------------------- there is exactly one listing

  lemma Comparable(a: Key, b: Key)
    ensures a == b || Before(a, b) || Before(b, a)
    ensures !(Before(a, b) && Before(b, a))
  {
  }

  lemma {:induction false} FirstExists(s: set<Key>) returns (m: Key)
    requires s != {}
    ensures m in s && forall y :: y in s && y != m ==> Before(m, y)
    decreases |s|
  {
    var a :| a in s;
    var rest := s - {a};
    m := a;
    if rest == {} {
      assert s == {a};
    } else {
      var b := FirstExists(rest);
      Comparable(a, b);
      m := if Before(a, b) then a else b;
      forall y | y in s && y != m ensures Before(m, y) {
        assert y == a || y in rest;
        assert y in rest && y != b ==> Before(b, y);
      }
    }
  }

  lemma {:induction false} ListingExists(s: set<Key>) returns (xs: seq<Key>)
    ensures IsListing(s, xs) && |xs| == |s|
    decreases |s|
  {
    xs := [];
    if s != {} {
      var m := FirstExists(s);
      var rest := ListingExists(s - {m});
      xs := [m] + rest;
      forall i, j | 0 <= i < j < |xs| ensures Before(xs[i], xs[j]) {
        assert xs[j] == rest[j - 1] && rest[j - 1] in rest;
      }
    }
  }

  /** There is only one way to list a set of rows. */
  lemma {:induction false} OneListing(s: set<Key>, xs: seq<Key>, ys: seq<Key>)
    requires IsListing(s, xs) && IsListing(s, ys)
    ensures xs == ys
    decreases |xs|
  {
    EmptyListing(s, xs);
    EmptyListing(s, ys);
    if s != {} {
      FirstsAgree(s, xs, ys);
      TailLists(s, xs);
      TailLists(s, ys);
      OneListing(s - {xs[0]}, xs[1..], ys[1..]);
      assert xs == [xs[0]] + xs[1..] && ys == [ys[0]] + ys[1..];
    }
  }

  lemma EmptyListing(s: set<Key>, xs: seq<Key>)
    requires IsListing(s, xs)
    ensures xs == [] <==> s == {}
  {
    if xs != [] {
      assert xs[0] in s;
    }
  }

  lemma FirstsAgree(s: set<Key>, xs: seq<Key>, ys: seq<Key>)
    requires IsListing(s, xs) && IsListing(s, ys) && xs != [] && ys != []
    ensures xs[0] == ys[0]
  {
    assert xs[0] in s && ys[0] in s;
    var i :| 0 <= i < |ys| && ys[i] == xs[0];
    var j :| 0 <= j < |xs| && xs[j] == ys[0];
  }

  lemma TailLists(s: set<Key>, xs: seq<Key>)
    requires IsListing(s, xs) && xs != []
    ensures IsListing(s - {xs[0]}, xs[1..])
  {
    forall k | k in s && k != xs[0] ensures k in xs[1..] {
      var i :| 0 <= i < |xs| && xs[i] == k;
      assert xs[1..][i - 1] == k;
    }
    forall k | k in xs[1..] ensures k in s - {xs[0]} {
      var i :| 0 <= i < |xs[1..]| && xs[1..][i] == k;
      assert xs[i + 1] == k && Before(xs[0], xs[i + 1]);
    }
  }

  // ---------------------------------------------------------------- one page

  datatype Page = Page(items: seq<Key>, nextCursor: Option<Cursor>, hasMore: bool)

  /** The repository fetches one row more than a page; the service cuts the page and makes the cursor. */
  function Cut(listing: seq<Key>, limit: nat): Page {
    var rows := if |listing| <= limit + 1 then listing else listing[..limit + 1];
    var hasMore := |rows| > limit;
    var page := if hasMore then rows[..limit] else rows;
    Page(page, if hasMore && page != [] then Some(CursorOf(page[|page| - 1])) else None, hasMore)
  }

  /** The answer to one request, over the rows that match at that moment. */
  ghost predicate IsPage(table: set<Key>, c: Option<Cursor>, limit: nat, p: Page) {
    forall listing :: IsListing(Admitted(table, c), listing) ==> p == Cut(listing, limit)
  }

  lemma PageExists(table: set<Key>, c: Option<Cursor>, limit: nat) returns (p: Page)
    ensures IsPage(table, c, limit, p)
  {
    var listing := ListingExists(Admitted(table, c));
    p := Cut(listing, limit);
    forall other | IsListing(Admitted(table, c), other) ensures p == Cut(other, limit) {
      OneListing(Admitted(table, c), listing, other);
    }
  }

  /** A cursor exactly if there is more; admitted rows in order; and what is missing comes later. */
  predicate GoodPage(table: set<Key>, c: Option<Cursor>, limit: nat, p: Page) {
    && (p.hasMore <==> p.nextCursor.Some?)
    && (p.hasMore ==> |p.items| == limit && p.items != [] && p.nextCursor == Some(CursorOf(p.items[|p.items| - 1])))
    && |p.items| <= limit && Descends(p.items)
    && (forall k :: k in p.items ==> k in table && Admits(c, k))
    && (forall k :: k in table && Admits(c, k) && k !in p.items ==> p.hasMore && Before(p.items[|p.items| - 1], k))
  }

  lemma PagesAreGood(table: set<Key>, c: Option<Cursor>, limit: nat, p: Page)
    requires 1 <= limit && IsPage(table, c, limit, p)
    ensures GoodPage(table, c, limit, p)
  {
    var listing := ListingExists(Admitted(table, c));
    assert p == Cut(listing, limit);
    forall k | k in p.items ensures k in Admitted(table, c) {
      assert k in listing;
    }
    forall k | k in table && Admits(c, k) && k !in p.items ensures p.hasMore && Before(p.items[|p.items| - 1], k) {
      assert k in Admitted(table, c);
      var i :| 0 <= i < |listing| && listing[i] == k;
      if |listing| > limit {
        assert forall j :: 0 <= j < limit ==> listing[j] in p.items;
        assert Before(listing[limit - 1], listing[i]);
      }
    }
  }

  // ---------------------------------------------------------------- a traversal of a changing table

  /** The pages a client sees that follows the cursors; `tables` are the matching rows at each request. */
  ghost predicate Follows(tables: seq<set<Key>>, c: Option<Cursor>, limit: nat, pages: seq<Page>)
    decreases |pages|
  {
    && |pages| <= |tables|
    && (pages != [] ==>
          && IsPage(tables[0], c, limit, pages[0])
          && (if pages[0].hasMore then Follows(tables[1..], pages[0].nextCursor, limit, pages[1..]) else |pages| == 1))
  }

  /** The traversal reached a page without a successor. */
  predicate Finished(pages: seq<Page>) {
    pages != [] && !pages[|pages| - 1].hasMore
  }

  /** Everything returned, in order. */
  function Returned(pages: seq<Page>): seq<Key> {
    if pages == [] then [] else pages[0].items + Returned(pages[1..])
  }

  /** The rows the cursors were made from. */
  function Boundaries(pages: seq<Page>): set<Key> {
    set p | p in pages && p.hasMore && p.items != [] :: p.items[|p.items| - 1]
  }

  /** A row the next page may show comes after the row its cursor was made from. */
  lemma AdmittedComesAfter(last: Key, k: Key)
    requires Admits(Some(CursorOf(last)), k)
    ensures Before(last, k)
  {
    assert (last.at / 1000) * 1000 <= last.at;
  }

  /** And a cursor admits whatever comes after a row it admits. */
  lemma AdmissionGoesOn(c: Option<Cursor>, a: Key, b: Key)
    requires Admits(c, a) && Before(a, b)
    ensures Admits(c, b)
  {
  }

  /** Whatever happens to the table between the pages, the rows returned strictly descend: no row is returned twice. */
  lemma {:induction false} NeverTwice(tables: seq<set<Key>>, c: Option<Cursor>, limit: nat, pages: seq<Page>)
    requires 1 <= limit && Follows(tables, c, limit, pages)
    ensures Descends(Returned(pages))
    ensures forall k :: k in Returned(pages) ==> Admits(c, k)
    decreases |pages|
  {
    if pages != [] {
      var p := pages[0];
      PagesAreGood(tables[0], c, limit, p);
      if p.hasMore {
        NeverTwice(tables[1..], p.nextCursor, limit, pages[1..]);
        LaterPagesComeAfter(p.items, Returned(pages[1..]), c);
      } else {
        assert Returned(pages[1..]) == [];
      }
    }
  }

  lemma LaterPagesComeAfter(items: seq<Key>, later: seq<Key>, c: Option<Cursor>)
    requires items != [] && Descends(items) && Descends(later)
    requires forall k :: k in items ==> Admits(c, k)
    requires forall k :: k in later ==> Admits(Some(CursorOf(items[|items| - 1])), k)
    ensures Descends(items + later)
    ensures forall k :: k in items + later ==> Admits(c, k)
  {
    var last, all := items[|items| - 1], items + later;
    forall k | k in later ensures Before(last, k) && Admits(c, k) {
      AdmittedComesAfter(last, k);
      AdmissionGoesOn(c, last, k);
    }
    forall i, j | 0 <= i < j < |all| ensures Before(all[i], all[j]) {
      if i < |items| <= j {
        assert later[j - |items|] in later;
        assert i < |items| - 1 ==> Before(items[i], last);
      }
    }
  }

  lemma {:induction false} BoundariesAreReturned(tables: seq<set<Key>>, c: Option<Cursor>, limit: nat, pages: seq<Page>, b: Key)
    requires 1 <= limit && Follows(tables, c, limit, pages) && b in Boundaries(pages)
    ensures b in Returned(pages)
    ensures exists i :: 0 <= i < |tables| && b in tables[i]
    decreases |pages|
  {
    var p := pages[0];
    PagesAreGood(tables[0], c, limit, p);
    if b in p.items {
      assert b in tables[0];
    } else {
      var q :| q in pages && q.hasMore && q.items != [] && b == q.items[|q.items| - 1];
      var n :| 0 <= n < |pages| && pages[n] == q;
      assert pages[1..][n - 1] == q;
      BoundariesAreReturned(tables[1..], p.nextCursor, limit, pages[1..], b);
      var i :| 0 <= i < |tables[1..]| && b in tables[1..][i];
      assert b in tables[i + 1];
    }
  }

  lemma BoundariesUnfold(pages: seq<Page>)
    requires pages != [] && pages[0].hasMore && pages[0].items != []
    ensures Boundaries(pages) == {pages[0].items[|pages[0].items| - 1]} + Boundaries(pages[1..])
  {
    assert pages == [pages[0]] + pages[1..];
    assert forall p :: p in pages <==> p == pages[0] || p in pages[1..];
  }

  /** The row comes after the boundary, and the boundary's cursor does not admit it. */
  predicate Loses(b: Key, k: Key) {
    Before(b, k) && !Admits(Some(CursorOf(b)), k)
  }

  lemma LostAtTheFirstBoundary(tables: seq<set<Key>>, c: Option<Cursor>, limit: nat, pages: seq<Page>, k: Key)
    requires 1 <= limit && Follows(tables, c, limit, pages) && pages != [] && pages[0].hasMore && pages[0].items != []
    requires k in tables[0] && k !in pages[0].items && Admits(c, k) && !Admits(pages[0].nextCursor, k)
    ensures var last := pages[0].items[|pages[0].items| - 1];
            k !in Returned(pages) && last in Boundaries(pages) && Loses(last, k)
  {
    var p := pages[0];
    PagesAreGood(tables[0], c, limit, p);
    NeverTwice(tables[1..], p.nextCursor, limit, pages[1..]);
    BoundariesUnfold(pages);
  }

  /** A row that matches at every request of a finished traversal is returned exactly when no cursor loses it. */
  lemma {:induction false} ReturnedIffNoCursorLosesIt(tables: seq<set<Key>>, c: Option<Cursor>, limit: nat, pages: seq<Page>, k: Key)
    requires 1 <= limit && Follows(tables, c, limit, pages) && Finished(pages) && Admits(c, k)
    requires forall i :: 0 <= i < |tables| ==> k in tables[i]
    ensures k in Returned(pages) <==> forall b :: b in Boundaries(pages) ==> !Loses(b, k)
    decreases |pages|
  {
    var p := pages[0];
    PagesAreGood(tables[0], c, limit, p);
    assert k in tables[0];
    if p.hasMore {
      var last := p.items[|p.items| - 1];
      BoundariesUnfold(pages);
      if k in p.items {
        NothingLosesAReturnedRow(tables, c, limit, pages, k);
      } else if Admits(p.nextCursor, k) {
        ReturnedIffNoCursorLosesIt(tables[1..], p.nextCursor, limit, pages[1..], k);
      } else {
        LostAtTheFirstBoundary(tables, c, limit, pages, k);
      }
    } else {
      assert k in p.items;
      NothingLosesAReturnedRow(tables, c, limit, pages, k);
    }
  }

  lemma {:induction false} NothingLosesAReturnedRow(tables: seq<set<Key>>, c: Option<Cursor>, limit: nat, pages: seq<Page>, k: Key)
    requires 1 <= limit && Follows(tables, c, limit, pages) && k in Returned(pages)
    ensures forall b :: b in Boundaries(pages) ==> !Loses(b, k)
    decreases |pages|
  {
    var p := pages[0];
    PagesAreGood(tables[0], c, limit, p);
    if p.hasMore {
      var last := p.items[|p.items| - 1];
      BoundariesUnfold(pages);
      NeverTwice(tables, c, limit, pages);
      NeverTwice(tables[1..], p.nextCursor, limit, pages[1..]);
      if k in p.items {
        forall b | b in Boundaries(pages) ensures !Before(b, k) {
          NotBeforeTheFirstPage(tables, c, limit, pages, b, k);
        }
      } else {
        NothingLosesAReturnedRow(tables[1..], p.nextCursor, limit, pages[1..], k);
      }
    } else {
      assert Boundaries(pages) == {};
    }
  }

  lemma NotBeforeTheFirstPage(tables: seq<set<Key>>, c: Option<Cursor>, limit: nat, pages: seq<Page>, b: Key, k: Key)
    requires 1 <= limit && Follows(tables, c, limit, pages) && pages != [] && pages[0].hasMore
    requires b in Boundaries(pages) && k in pages[0].items
    ensures !Before(b, k)
  {
    var p := pages[0];
    PagesAreGood(tables[0], c, limit, p);
    BoundariesUnfold(pages);
    var last := p.items[|p.items| - 1];
    assert k == last || Before(k, last);
    if b != last {
      BoundariesAreReturned(tables[1..], p.nextCursor, limit, pages[1..], b);
      NeverTwice(tables[1..], p.nextCursor, limit, pages[1..]);
      AdmittedComesAfter(last, b);
    }
  }

  predicate WholeMilliseconds(s: set<Key>) {
    forall k :: k in s ==> k.at % 1000 == 0
  }

  /** With stored instants in whole milliseconds, a row present throughout is returned, and by `NeverTwice` once. */
  lemma PresentThroughoutIsReturned(tables: seq<set<Key>>, limit: nat, pages: seq<Page>, k: Key)
    requires 1 <= limit && Follows(tables, None, limit, pages) && Finished(pages)
    requires forall i :: 0 <= i < |tables| ==> k in tables[i] && WholeMilliseconds(tables[i])
    ensures k in Returned(pages)
  {
    ReturnedIffNoCursorLosesIt(tables, None, limit, pages, k);
    assert k in tables[0];
    forall b | b in Boundaries(pages) ensures !Loses(b, k) {
      BoundariesAreReturned(tables, None, limit, pages, b);
      var i :| 0 <= i < |tables| && b in tables[i];
      assert b.at % 1000 == 0;
    }
  }

  // ---------------------------------------------------------------- a table that stays as it is

  /** Every page boundary of the listing has a cursor that admits the row after it. */
  predicate Seamless(listing: seq<Key>, limit: nat)
    requires 1 <= limit
  {
    |listing| <= limit || (Admits(Some(CursorOf(listing[limit - 1])), listing[limit]) && Seamless(listing[limit..], limit))
  }

  function PageCount(n: nat, limit: nat): nat
    requires 1 <= limit
  {
    if n <= limit then 1 else 1 + PageCount(n - limit, limit)
  }

  /** If the row after a boundary is admitted, the next page starts exactly there. */
  lemma NextStartsThere(table: set<Key>, c: Option<Cursor>, rest: seq<Key>, n: nat)
    requires IsListing(Admitted(table, c), rest) && 1 <= n < |rest| && Admits(Some(CursorOf(rest[n - 1])), rest[n])
    ensures IsListing(Admitted(table, Some(CursorOf(rest[n - 1]))), rest[n..])
  {
    var last, next := rest[n - 1], Some(CursorOf(rest[n - 1]));
    forall k | k in Admitted(table, next) ensures k in rest[n..] {
      AdmittedComesAfter(last, k);
      assert last in rest;
      AdmissionGoesOn(c, last, k);
      assert k in Admitted(table, c);
      var i :| 0 <= i < |rest| && rest[i] == k;
      NotEarlier(rest, i, n - 1);
      assert rest[n..][i - n] == k;
    }
    forall k | k in rest[n..] ensures k in Admitted(table, next) {
      var i :| 0 <= i < |rest[n..]| && rest[n..][i] == k;
      assert rest[n + i] == k && k in rest;
      if 0 < i {
        AdmissionGoesOn(next, rest[n], rest[n + i]);
      }
    }
  }

  lemma NotEarlier(xs: seq<Key>, i: nat, j: nat)
    requires Descends(xs) && i < |xs| && j < |xs| && Before(xs[j], xs[i])
    ensures j < i
  {
  }

  /** The traversal of a table that does not change. */
  ghost predicate FollowsFixed(table: set<Key>, c: Option<Cursor>, limit: nat, pages: seq<Page>)
    decreases |pages|
  {
    && pages != [] && IsPage(table, c, limit, pages[0])
    && if pages[0].hasMore then FollowsFixed(table, pages[0].nextCursor, limit, pages[1..]) else |pages| == 1
  }

  lemma {:induction false} FixedPagesAreAdmitted(table: set<Key>, c: Option<Cursor>, limit: nat, pages: seq<Page>)
    requires 1 <= limit && FollowsFixed(table, c, limit, pages)
    ensures forall k :: k in Returned(pages) ==> Admits(c, k)
    decreases |pages|
  {
    var p := pages[0];
    PagesAreGood(table, c, limit, p);
    if p.hasMore {
      FixedPagesAreAdmitted(table, p.nextCursor, limit, pages[1..]);
      var last := p.items[|p.items| - 1];
      assert Admits(c, last);
      forall k | k in Returned(pages[1..]) ensures Admits(c, k) {
        AdmittedComesAfter(last, k);
        AdmissionGoesOn(c, last, k);
      }
    } else {
      assert Returned(pages[1..]) == [];
    }
  }

  lemma SamePrefix(a: seq<Key>, b: seq<Key>, c: seq<Key>)
    ensures a + b == a + c <==> b == c
  {
    assert (a + b)[|a|..] == b && (a + c)[|a|..] == c;
  }

  /** If a boundary's cursor does not admit the next row, the rest cannot be complete. */
  lemma SeamLosesRow(table: set<Key>, c: Option<Cursor>, limit: nat, pages: seq<Page>, rest: seq<Key>)
    requires 1 <= limit && FollowsFixed(table, c, limit, pages) && rest != [] && !Admits(c, rest[0])
    ensures Returned(pages) != rest
  {
    FixedPagesAreAdmitted(table, c, limit, pages);
    if Returned(pages) == rest {
      assert rest[0] in Returned(pages);
    }
  }

  lemma FirstFixedPage(table: set<Key>, c: Option<Cursor>, limit: nat, pages: seq<Page>, listing: seq<Key>)
    requires 1 <= limit && IsListing(Admitted(table, c), listing) && FollowsFixed(table, c, limit, pages)
    ensures |listing| <= limit ==> Returned(pages) == listing && |pages| == 1
    ensures |listing| > limit ==>
              && pages[0].items == listing[..limit]
              && FollowsFixed(table, Some(CursorOf(listing[limit - 1])), limit, pages[1..])
  {
    assert pages[0] == Cut(listing, limit);
    if |listing| <= limit {
      assert Returned(pages[1..]) == [];
    }
  }

  lemma ReturnedSplits(pages: seq<Page>, listing: seq<Key>, n: nat)
    requires pages != [] && n <= |listing| && pages[0].items == listing[..n]
    ensures Returned(pages) == listing <==> Returned(pages[1..]) == listing[n..]
  {
    assert listing == listing[..n] + listing[n..];
    SamePrefix(listing[..n], Returned(pages[1..]), listing[n..]);
  }

  /** A fixed table comes back complete exactly when its boundaries are seamless. */
  lemma {:induction false} CompleteIffSeamless(table: set<Key>, c: Option<Cursor>, limit: nat, pages: seq<Page>, listing: seq<Key>)
    requires 1 <= limit && IsListing(Admitted(table, c), listing) && FollowsFixed(table, c, limit, pages)
    ensures Returned(pages) == listing <==> Seamless(listing, limit)
    decreases |pages|
  {
    FirstFixedPage(table, c, limit, pages, listing);
    if |listing| > limit {
      var after, rest := Some(CursorOf(listing[limit - 1])), listing[limit..];
      ReturnedSplits(pages, listing, limit);
      if Admits(after, listing[limit]) {
        NextStartsThere(table, c, listing, limit);
        CompleteIffSeamless(table, after, limit, pages[1..], rest);
      } else {
        SeamLosesRow(table, after, limit, pages[1..], rest);
      }
    }
  }

  /** And then it takes as many pages as its size needs. */
  lemma {:induction false} SeamlessPages(table: set<Key>, c: Option<Cursor>, limit: nat, pages: seq<Page>, listing: seq<Key>)
    requires 1 <= limit && IsListing(Admitted(table, c), listing) && FollowsFixed(table, c, limit, pages)
    requires Seamless(listing, limit)
    ensures |pages| == PageCount(|listing|, limit)
    decreases |pages|
  {
    FirstFixedPage(table, c, limit, pages, listing);
    if |listing| > limit {
      NextStartsThere(table, c, listing, limit);
      SeamlessPages(table, Some(CursorOf(listing[limit - 1])), limit, pages[1..], listing[limit..]);
    }
  }

  /** Following the cursors over a fixed table comes to an end. */
  lemma {:induction false} TraversalEnds(table: set<Key>, c: Option<Cursor>, limit: nat) returns (pages: seq<Page>)
    requires 1 <= limit
    ensures FollowsFixed(table, c, limit, pages)
    decreases |Admitted(table, c)|
  {
    var p := PageExists(table, c, limit);
    PagesAreGood(table, c, limit, p);
    if p.hasMore {
      CursorMovesOn(table, c, p);
      var later := TraversalEnds(table, p.nextCursor, limit);
      pages := [p] + later;
      assert pages[1..] == later;
    } else {
      pages := [p];
    }
  }

  lemma CursorMovesOn(table: set<Key>, c: Option<Cursor>, p: Page)
    requires p.items != [] && p.nextCursor == Some(CursorOf(p.items[|p.items| - 1]))
    requires forall k :: k in p.items ==> k in table && Admits(c, k)
    ensures |Admitted(table, p.nextCursor)| < |Admitted(table, c)|
  {
    var last := p.items[|p.items| - 1];
    var now, next := Admitted(table, c), Admitted(table, p.nextCursor);
    assert last in now;
    forall k | k in next ensures k in now - {last} {
      AdmittedComesAfter(last, k);
      AdmissionGoesOn(c, last, k);
    }
    SubsetIsNotLarger(next, now - {last});
  }

  lemma SubsetIsNotLarger(a: set<Key>, b: set<Key>)
    requires a <= b
    ensures |a| <= |b|
  {
    assert b == a + (b - a);
  }

  /** The page count is the rounded-up quotient, and one for an empty table. */
  lemma {:induction false} PageCountIsCeiling(n: nat, limit: nat)
    requires 1 <= limit
    ensures PageCount(n, limit) * limit >= n
    ensures n > limit ==> (PageCount(n, limit) - 1) * limit < n
    ensures n <= limit ==> PageCount(n, limit) == 1
  {
    if n > limit {
      PageCountIsCeiling(n - limit, limit);
      var rest := PageCount(n - limit, limit);
      assert (rest + 1) * limit == rest * limit + limit;
      assert (rest - 1) * limit + limit == rest * limit;
      assert rest == 1 ==> rest * limit == limit;
    }
  }

  lemma {:induction false} WholeIsSeamless(listing: seq<Key>, limit: nat)
    requires 1 <= limit && Descends(listing) && forall i :: 0 <= i < |listing| ==> listing[i].at % 1000 == 0
    ensures Seamless(listing, limit)
  {
    if |listing| > limit {
      assert Before(listing[limit - 1], listing[limit]);
      WholeIsSeamless(listing[limit..], limit);
    }
  }

  /** With whole milliseconds the pages, one after another, are the whole table in order. */
  lemma FixedTableComesBackWhole(table: set<Key>, limit: nat, pages: seq<Page>, listing: seq<Key>)
    requires 1 <= limit && WholeMilliseconds(table) && FollowsFixed(table, None, limit, pages) && IsListing(table, listing)
    ensures Returned(pages) == listing && |pages| == PageCount(|listing|, limit)
  {
    assert Admitted(table, None) == table;
    forall i | 0 <= i < |listing| ensures listing[i].at % 1000 == 0 {
      assert listing[i] in listing;
    }
    WholeIsSeamless(listing, limit);
    CompleteIffSeamless(table, None, limit, pages, listing);
    SeamlessPages(table, None, limit, pages, listing);
  }

  /** Two rows in the same millisecond, one row a page: the second is never shown. */
  lemma SubMillisecondRowsAreLost(pages: seq<Page>)
    requires FollowsFixed({Key(1_000_600, 1), Key(1_000_300, 2)}, None, 1, pages)
    ensures Key(1_000_300, 2) !in Returned(pages)
  {
    var a, b := Key(1_000_600, 1), Key(1_000_300, 2);
    var table, listing := {a, b}, [a, b];
    assert Admitted(table, None) == table;
    assert IsListing(table, listing);
    assert pages[0] == Cut(listing, 1);
    assert pages[0].items == [a] && pages[0].nextCursor == Some(CursorOf(a));
    FixedPagesAreAdmitted(table, pages[0].nextCursor, 1, pages[1..]);
  }
}
