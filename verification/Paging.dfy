/** The paged search results as values: what adding, removing, batching, switching
    pages and clearing do to the pages, the displayed list and the pending adds. */
module Paging {
  import opened Wrappers

  /** A file result. Results are told apart by identity, not by name. */
  class RemoteFileItem {
    const fileName: string
    const fileSize: Option<int>

    constructor (fileName: string, fileSize: Option<int>)
      ensures this.fileName == fileName && this.fileSize == fileSize
    {
      this.fileName, this.fileSize := fileName, fileSize;
    }

    function Bytes(): int {
      if fileSize.Some? then fileSize.value else 0
    }
  }

  type Page = set<RemoteFileItem>

  /** `view` is the displayed list; its order belongs to the sort column. */
  datatype Results = Results(
    pages: seq<Page>,
    current: nat,
    view: multiset<RemoteFileItem>,
    pending: seq<RemoteFileItem>,
    bytes: int)

  // ---------- The operations ----------

  function PageItems(pages: seq<Page>): multiset<RemoteFileItem> {
    if pages == [] then multiset{} else PageItems(pages[..|pages| - 1]) + multiset(pages[|pages| - 1])
  }

  function PageOrNothing(pages: seq<Page>, i: int): Page {
    if 0 <= i < |pages| then pages[i] else {}
  }

  /** SwitchToPage, which accepts any page number. */
  function Switch(r: Results, page: int): Results {
    var low := if page >= |r.pages| then |r.pages| - 1 else page;
    var current := if low < 0 then 0 else low;
    r.(current := current, view := multiset(PageOrNothing(r.pages, current)))
  }

  /** AddFileItem */
  function Add(r: Results, item: RemoteFileItem): Results {
    r.(pending := r.pending + [item], bytes := r.bytes + item.Bytes())
  }

  /** One item put on a page, which is made if it does not exist. */
  function Place(pages: seq<Page>, addPage: nat, item: RemoteFileItem): seq<Page>
    requires addPage <= |pages|
  {
    var table := PageOrNothing(pages, addPage) + {item};
    if addPage < |pages| then pages[addPage := table] else pages + [table]
  }

  datatype Fill = Fill(pages: seq<Page>, display: seq<RemoteFileItem>)

  /** The loop of EndBatchFileResultUpdate: each item goes to the first page from addPage
      on that has room; items put on the current page are to be displayed. */
  function FillPages(pages: seq<Page>, addPage: nat, items: seq<RemoteFileItem>, current: nat, pageSize: nat): (f: Fill)
    requires addPage <= |pages| && pageSize > 0
    decreases |items|, |pages| - addPage
  {
    if items == [] then Fill(pages, [])
    else if addPage < |pages| && |pages[addPage]| >= pageSize then
      FillPages(pages, addPage + 1, items, current, pageSize)
    else
      var rest := FillPages(Place(pages, addPage, items[0]), addPage, items[1..], current, pageSize);
      rest.(display := (if addPage == current then [items[0]] else []) + rest.display)
  }

  function EndBatch(r: Results, pageSize: nat): Results
    requires pageSize > 0
  {
    if r.pending == [] then r
    else
      var f := FillPages(r.pages, 0, r.pending, r.current, pageSize);
      r.(pages := f.pages, view := r.view + multiset(f.display), pending := [])
  }

  /** The last of the first n pages that holds the item, or -1. */
  function FindPage(pages: seq<Page>, item: RemoteFileItem, n: nat): (i: int)
    requires n <= |pages|
    ensures -1 <= i < n
    ensures i >= 0 ==> item in pages[i]
  {
    if n == 0 then -1
    else if item in pages[n - 1] then n - 1
    else FindPage(pages, item, n - 1)
  }

  /** What RemoveFileItem does to the page it found. */
  function RemoveFrom(r: Results, i: nat, item: RemoteFileItem): Results
    requires i < |r.pages|
  {
    var table := r.pages[i] - {item};
    var view := if i == r.current then r.view - multiset{item} else r.view;
    var without := r.(pages := r.pages[..i] + r.pages[i + 1..], view := view);
    if table != {} then r.(pages := r.pages[i := table], view := view)
    else if i < r.current then without.(current := r.current - 1)
    else if i == r.current then Switch(without, r.current - 1)
    else without
  }

  /** RemoveFileItem */
  function Remove(r: Results, item: RemoteFileItem): Results {
    var less := r.(bytes := r.bytes - item.Bytes());
    var i := FindPage(r.pages, item, |r.pages|);
    if i < 0 then less else RemoveFrom(less, i, item)
  }

  /** ClearResults */
  function Clear(r: Results): Results {
    Switch(r.(pages := []), 0).(bytes := 0)
  }

  // ---------- The invariant ----------

  ghost function Sum(items: set<RemoteFileItem>): int {
    if items == {} then 0 else var x :| x in items; x.Bytes() + Sum(items - {x})
  }

  /** The results agree with the plain set of known files: each known file is on exactly
      one page or pending, exactly once; no page is empty or too large; the current page
      exists, or is 0; the displayed list is the current page; the bytes add up. */
  ghost predicate Inv(r: Results, live: set<RemoteFileItem>, pageSize: nat) {
    && PageItems(r.pages) + multiset(r.pending) == multiset(live)
    && (forall i :: 0 <= i < |r.pages| ==> r.pages[i] != {} && |r.pages[i]| <= pageSize)
    && (if r.pages == [] then r.current == 0 else r.current < |r.pages|)
    && r.view == multiset(PageOrNothing(r.pages, r.current))
    && r.bytes == Sum(live)
  }

  lemma {:induction false} SumWithout(items: set<RemoteFileItem>, x: RemoteFileItem)
    requires x in items
    ensures Sum(items) == x.Bytes() + Sum(items - {x})
    decreases |items|
  {
    var y :| y in items && Sum(items) == y.Bytes() + Sum(items - {y});
    if x != y {
      SumWithout(items - {y}, x);
      SumWithout(items - {x}, y);
      assert items - {y} - {x} == items - {x} - {y};
    }
  }

  lemma {:induction false} PageItemsAt(pages: seq<Page>, i: nat, x: RemoteFileItem)
    requires i < |pages|
    ensures multiset(pages[i])[x] <= PageItems(pages)[x]
    decreases |pages|
  {
    if i < |pages| - 1 {
      PageItemsAt(pages[..|pages| - 1], i, x);
    }
  }

  lemma {:induction false} PageItemsUpdate(pages: seq<Page>, i: nat, table: Page)
    requires i < |pages|
    ensures PageItems(pages[i := table]) + multiset(pages[i]) == PageItems(pages) + multiset(table)
    decreases |pages|
  {
    var n := |pages| - 1;
    if i < n {
      PageItemsUpdate(pages[..n], i, table);
      assert pages[i := table][..n] == pages[..n][i := table];
      var last := multiset(pages[n]);
      var a, b := PageItems(pages[..n][i := table]), multiset(pages[i]);
      var c, d := PageItems(pages[..n]), multiset(table);
      calc {
        (a + last) + b;
        (a + b) + last;
        (c + d) + last;
        (c + last) + d;
      }
    } else {
      assert pages[i := table][..n] == pages[..n];
    }
  }

  lemma {:induction false} PageItemsCut(pages: seq<Page>, i: nat)
    requires i < |pages|
    ensures PageItems(pages[..i] + pages[i + 1..]) + multiset(pages[i]) == PageItems(pages)
    decreases |pages|
  {
    var n := |pages| - 1;
    var cut := pages[..i] + pages[i + 1..];
    if i < n {
      PageItemsCut(pages[..n], i);
      assert cut[..|cut| - 1] == pages[..n][..i] + pages[..n][i + 1..];
    } else {
      assert cut == pages[..n];
    }
  }

  /** What the first clause of the invariant means page by page. */
  lemma PagesAreDisjoint(r: Results, live: set<RemoteFileItem>, pageSize: nat)
    requires Inv(r, live, pageSize)
    ensures forall i, j :: 0 <= i < j < |r.pages| ==> r.pages[i] !! r.pages[j]
    ensures forall i, k :: 0 <= i < |r.pages| && 0 <= k < |r.pending| ==> r.pending[k] !in r.pages[i]
    ensures forall i, x :: 0 <= i < |r.pages| && x in r.pages[i] ==> x in live
  {
    forall i, j | 0 <= i < j < |r.pages| ensures r.pages[i] !! r.pages[j] {
      forall x ensures !(x in r.pages[i] && x in r.pages[j]) {
        PageItemsCut(r.pages, j);
        PageItemsAt(r.pages[..j] + r.pages[j + 1..], i, x);
        OnceInSum(PageItems(r.pages), multiset(r.pending), live, x);
      }
    }
    forall i, x | 0 <= i < |r.pages| && x in r.pages[i] ensures x in live && x !in r.pending {
      PageItemsAt(r.pages, i, x);
      OnceInSum(PageItems(r.pages), multiset(r.pending), live, x);
      assert x !in multiset(r.pending);
    }
    forall i, k | 0 <= i < |r.pages| && 0 <= k < |r.pending| ensures r.pending[k] !in r.pages[i] {
      assert r.pending[k] in r.pending;
    }
  }

  lemma OnceInSum(a: multiset<RemoteFileItem>, b: multiset<RemoteFileItem>, s: set<RemoteFileItem>, x: RemoteFileItem)
    requires a + b == multiset(s)
    ensures a[x] + b[x] == if x in s then 1 else 0
  {
    assert (a + b)[x] == multiset(s)[x];
  }

  // ---------- Adding and ending a batch ----------

  lemma AddKeepsInv(r: Results, live: set<RemoteFileItem>, pageSize: nat, item: RemoteFileItem)
    requires Inv(r, live, pageSize) && item !in live
    ensures Inv(Add(r, item), live + {item}, pageSize)
    ensures Add(r, item).pending == r.pending + [item] && Add(r, item).view == r.view
  {
    SumWithout(live + {item}, item);
    assert live + {item} - {item} == live;
    assert multiset(live + {item}) == multiset(live) + multiset{item};
    assert multiset(r.pending + [item]) == multiset(r.pending) + multiset{item};
    assert PageItems(r.pages) + (multiset(r.pending) + multiset{item}) == multiset(live) + multiset{item};
  }

  lemma Cancel(a: multiset<RemoteFileItem>, b: multiset<RemoteFileItem>, c: multiset<RemoteFileItem>)
    requires a + c == b + c
    ensures a == b
  {
    forall x ensures a[x] == b[x] {
      assert (a + c)[x] == (b + c)[x];
    }
  }

  predicate GoodPages(pages: seq<Page>, pageSize: nat) {
    forall i :: 0 <= i < |pages| ==> pages[i] != {} && |pages[i]| <= pageSize
  }

  lemma PlaceAdds(pages: seq<Page>, addPage: nat, items: seq<RemoteFileItem>, live: set<RemoteFileItem>)
    requires addPage <= |pages| && items != []
    requires PageItems(pages) + multiset(items) == multiset(live)
    ensures items[0] !in PageOrNothing(pages, addPage)
    ensures PageItems(Place(pages, addPage, items[0])) + multiset(items[1..]) == multiset(live)
  {
    var item := items[0];
    assert items == [item] + items[1..];
    OnceInSum(PageItems(pages), multiset(items), live, item);
    var table := PageOrNothing(pages, addPage);
    var placed := Place(pages, addPage, item);
    if addPage < |pages| {
      PageItemsAt(pages, addPage, item);
    }
    assert multiset(table + {item}) == multiset(table) + multiset{item};
    if addPage < |pages| {
      PageItemsUpdate(pages, addPage, table + {item});
      assert PageItems(placed) + multiset(table) == (PageItems(pages) + multiset{item}) + multiset(table);
      Cancel(PageItems(placed), PageItems(pages) + multiset{item}, multiset(table));
    } else {
      assert placed[..|pages|] == pages;
    }
    assert PageItems(placed) == PageItems(pages) + multiset{item};
    assert multiset(items) == multiset{item} + multiset(items[1..]);
  }

  lemma {:induction false} FillKeepsPages(pages: seq<Page>, addPage: nat, items: seq<RemoteFileItem>, current: nat,
                                          pageSize: nat, live: set<RemoteFileItem>)
    requires addPage <= |pages| && pageSize > 0 && GoodPages(pages, pageSize)
    requires PageItems(pages) + multiset(items) == multiset(live)
    ensures var f := FillPages(pages, addPage, items, current, pageSize);
            && PageItems(f.pages) == multiset(live) && GoodPages(f.pages, pageSize)
            && |pages| <= |f.pages|
            && multiset(PageOrNothing(f.pages, current)) ==
                 multiset(PageOrNothing(pages, current)) + multiset(f.display)
    decreases |items|, |pages| - addPage
  {
    hide PageItems;
    if items == [] {
    } else if addPage < |pages| && |pages[addPage]| >= pageSize {
      FillKeepsPages(pages, addPage + 1, items, current, pageSize, live);
    } else {
      PlaceAdds(pages, addPage, items, live);
      FillKeepsPages(Place(pages, addPage, items[0]), addPage, items[1..], current, pageSize, live);
    }
  }

  lemma {:induction false} FillGrows(pages: seq<Page>, addPage: nat, items: seq<RemoteFileItem>, current: nat,
                                     pageSize: nat, j: nat)
    requires addPage <= |pages| && pageSize > 0
    ensures var f := FillPages(pages, addPage, items, current, pageSize).pages;
            |pages| <= |f| && PageOrNothing(pages, j) <= PageOrNothing(f, j)
    decreases |items|, |pages| - addPage
  {
    if items == [] {
    } else if addPage < |pages| && |pages[addPage]| >= pageSize {
      FillGrows(pages, addPage + 1, items, current, pageSize, j);
    } else {
      FillGrows(Place(pages, addPage, items[0]), addPage, items[1..], current, pageSize, j);
    }
  }

  /** First fit: a page gets new items only when every page before it is full. */
  lemma {:induction false} FillIsFirstFit(pages: seq<Page>, addPage: nat, items: seq<RemoteFileItem>, current: nat,
                                          pageSize: nat, i: nat, j: nat)
    requires addPage <= |pages| && pageSize > 0 && addPage <= i < j
    ensures var f := FillPages(pages, addPage, items, current, pageSize).pages;
            PageOrNothing(f, j) != PageOrNothing(pages, j) ==> |PageOrNothing(f, i)| >= pageSize
    decreases |items|, |pages| - addPage
  {
    if items == [] {
    } else if addPage < |pages| && |pages[addPage]| >= pageSize {
      if i == addPage {
        FillGrows(pages, addPage + 1, items, current, pageSize, i);
        LargerPage(pages[i], PageOrNothing(FillPages(pages, addPage + 1, items, current, pageSize).pages, i));
      } else {
        FillIsFirstFit(pages, addPage + 1, items, current, pageSize, i, j);
      }
    } else {
      FillIsFirstFit(Place(pages, addPage, items[0]), addPage, items[1..], current, pageSize, i, j);
    }
  }

  lemma LargerPage(small: Page, large: Page)
    requires small <= large
    ensures |small| <= |large|
  {
    assert large == small + (large - small);
  }

  lemma {:induction false} FillKeepsEarlier(pages: seq<Page>, addPage: nat, items: seq<RemoteFileItem>, current: nat,
                                            pageSize: nat, j: nat)
    requires j < addPage <= |pages| && pageSize > 0
    ensures var f := FillPages(pages, addPage, items, current, pageSize).pages;
            |f| >= |pages| && f[j] == pages[j]
    decreases |items|, |pages| - addPage
  {
    if items == [] {
    } else if addPage < |pages| && |pages[addPage]| >= pageSize {
      FillKeepsEarlier(pages, addPage + 1, items, current, pageSize, j);
    } else {
      FillKeepsEarlier(Place(pages, addPage, items[0]), addPage, items[1..], current, pageSize, j);
    }
  }

  lemma NotTwice(pages: seq<Page>, items: seq<RemoteFileItem>, live: set<RemoteFileItem>, k: nat, j: nat)
    requires PageItems(pages) + multiset(items) == multiset(live) && k < |items| && j < |pages|
    ensures items[k] !in pages[j]
  {
    PageItemsAt(pages, j, items[k]);
    assert items[k] in multiset(items);
    OnceInSum(PageItems(pages), multiset(items), live, items[k]);
  }

  lemma OnlyPage(pages: seq<Page>, live: set<RemoteFileItem>, x: RemoteFileItem, i: nat, j: nat)
    requires PageItems(pages) == multiset(live) && i < |pages| && j < |pages| && x in pages[i] && x in pages[j]
    ensures i == j
  {
    var a, b := if i < j then i else j, if i < j then j else i;
    if a < b {
      PageItemsCut(pages, b);
      PageItemsAt(pages[..b] + pages[b + 1..], a, x);
      OnceInSum(PageItems(pages), multiset{}, live, x);
    }
  }

  /** Over the pages the new items are in the order in which they came. */
  lemma {:induction false} FillKeepsArrival(pages: seq<Page>, addPage: nat, items: seq<RemoteFileItem>, current: nat,
                                            pageSize: nat, live: set<RemoteFileItem>, a: nat, b: nat, p: nat, q: nat)
    requires addPage <= |pages| && pageSize > 0 && GoodPages(pages, pageSize)
    requires PageItems(pages) + multiset(items) == multiset(live) && a < b < |items|
    requires var f := FillPages(pages, addPage, items, current, pageSize).pages;
             p < |f| && q < |f| && items[a] in f[p] && items[b] in f[q]
    ensures p <= q
    decreases |items|, |pages| - addPage
  {
    hide PageItems, GoodPages, Place;
    var f := FillPages(pages, addPage, items, current, pageSize).pages;
    if addPage < |pages| && |pages[addPage]| >= pageSize {
      FillKeepsArrival(pages, addPage + 1, items, current, pageSize, live, a, b, p, q);
    } else {
      PlaceAdds(pages, addPage, items, live);
      var placed := Place(pages, addPage, items[0]);
      PlacedIsGood(pages, addPage, items[0], pageSize);
      if a == 0 {
        FillGrows(placed, addPage, items[1..], current, pageSize, addPage);
        FillKeepsPages(pages, addPage, items, current, pageSize, live);
        OnlyPage(f, live, items[0], p, addPage);
        if q < addPage {
          FillKeepsEarlier(pages, addPage, items, current, pageSize, q);
          NotTwice(pages, items, live, b, q);
          assert false;
        }
      } else {
        FillKeepsArrival(placed, addPage, items[1..], current, pageSize, live, a - 1, b - 1, p, q);
      }
    }
  }

  lemma PlacedIsGood(pages: seq<Page>, addPage: nat, item: RemoteFileItem, pageSize: nat)
    requires GoodPages(pages, pageSize) && addPage <= |pages| && pageSize > 0
    requires addPage < |pages| ==> |pages[addPage]| < pageSize
    ensures var placed := Place(pages, addPage, item);
            GoodPages(placed, pageSize) && addPage < |placed| && item in placed[addPage]
  {
  }

  lemma EndBatchKeepsInv(r: Results, live: set<RemoteFileItem>, pageSize: nat)
    requires Inv(r, live, pageSize) && pageSize > 0
    ensures Inv(EndBatch(r, pageSize), live, pageSize) && EndBatch(r, pageSize).pending == []
  {
    hide PageItems, FillPages;
    FillKeepsPages(r.pages, 0, r.pending, r.current, pageSize, live);
  }

  // ---------- Switching, removing and clearing ----------

  /** Any page number is acceptable: it is moved to the nearest page. */
  lemma SwitchKeepsInv(r: Results, live: set<RemoteFileItem>, pageSize: nat, page: int)
    requires Inv(r, live, pageSize)
    ensures Inv(Switch(r, page), live, pageSize)
    ensures 0 <= page < |r.pages| ==> Switch(r, page).current == page && Switch(r, page).view == multiset(r.pages[page])
  {
  }

  /** A number beyond the last page shows the last page, a negative one the first. */
  lemma SwitchShows(r: Results, page: int)
    ensures var s := Switch(r, page);
            && s.pages == r.pages && s.pending == r.pending && s.bytes == r.bytes
            && (if r.pages == [] then s.current == 0 && s.view == multiset{}
                else
                  && s.current == (if page < 0 then 0 else if page >= |r.pages| then |r.pages| - 1 else page)
                  && s.view == multiset(r.pages[s.current]))
  {
    if r.pages == [] {
      var none: Page := {};
      assert multiset(none) == multiset{};
    }
  }

  lemma {:induction false} FindsPage(pages: seq<Page>, item: RemoteFileItem, n: nat)
    requires n <= |pages|
    ensures FindPage(pages, item, n) >= 0 <==> item in PageItems(pages[..n])
  {
    if n > 0 {
      FindsPage(pages, item, n - 1);
      assert pages[..n][..n - 1] == pages[..n - 1];
    }
  }

  lemma RemoveFromContents(r: Results, item: RemoteFileItem, i: nat)
    requires i < |r.pages| && item in r.pages[i]
    ensures PageItems(RemoveFrom(r, i, item).pages) + multiset{item} == PageItems(r.pages)
  {
    var s := RemoveFrom(r, i, item);
    var table := r.pages[i] - {item};
    assert multiset(r.pages[i]) == multiset(table) + multiset{item};
    if table == {} {
      PageItemsCut(r.pages, i);
    } else {
      PageItemsUpdate(r.pages, i, table);
      assert (PageItems(s.pages) + multiset{item}) + multiset(table) == PageItems(r.pages) + multiset(table);
      Cancel(PageItems(s.pages) + multiset{item}, PageItems(r.pages), multiset(table));
    }
  }

  lemma RemoveFromStaysShown(r: Results, pageSize: nat, item: RemoteFileItem, i: nat)
    requires i < |r.pages| && item in r.pages[i] && GoodPages(r.pages, pageSize)
    requires r.current < |r.pages| && r.view == multiset(r.pages[r.current])
    ensures var s := RemoveFrom(r, i, item);
            && GoodPages(s.pages, pageSize) && s.pending == r.pending && s.bytes == r.bytes
            && (if s.pages == [] then s.current == 0 else s.current < |s.pages|)
            && s.view == multiset(PageOrNothing(s.pages, s.current))
  {
    LargerPage(r.pages[i] - {item}, r.pages[i]);
    assert multiset(r.pages[i] - {item}) == multiset(r.pages[i]) - multiset{item};
  }

  lemma RemoveFromPage(r: Results, live: set<RemoteFileItem>, pageSize: nat, item: RemoteFileItem, i: nat)
    requires Inv(r, live, pageSize) && i < |r.pages| && item in r.pages[i] && item in live
    ensures Inv(RemoveFrom(r.(bytes := r.bytes - item.Bytes()), i, item), live - {item}, pageSize)
  {
    hide RemoveFrom, PageItems;
    var less := r.(bytes := r.bytes - item.Bytes());
    var s := RemoveFrom(less, i, item);
    SumWithout(live, item);
    RemoveFromContents(less, item, i);
    RemoveFromStaysShown(less, pageSize, item, i);
    var pending := multiset(r.pending);
    assert multiset(live) == multiset(live - {item}) + multiset{item};
    assert (PageItems(s.pages) + pending) + multiset{item} == multiset(live - {item}) + multiset{item};
    Cancel(PageItems(s.pages) + pending, multiset(live - {item}), multiset{item});
  }

  /** Removing a known file keeps the invariant if and only if the file is not still
      among the pending adds, which RemoveFileItem does not look at. */
  lemma RemoveKeepsInvIff(r: Results, live: set<RemoteFileItem>, pageSize: nat, item: RemoteFileItem)
    requires Inv(r, live, pageSize) && item in live
    ensures Inv(Remove(r, item), live - {item}, pageSize) <==> item !in r.pending
    ensures item in r.pending ==> Remove(r, item) == r.(bytes := r.bytes - item.Bytes())
  {
    hide RemoveFrom, Sum;
    FindsPage(r.pages, item, |r.pages|);
    assert r.pages[..|r.pages|] == r.pages;
    OnceInSum(PageItems(r.pages), multiset(r.pending), live, item);
    if item in r.pending {
      assert item in multiset(r.pending);
      if Inv(Remove(r, item), live - {item}, pageSize) {
        var s := Remove(r, item);
        OnceInSum(PageItems(s.pages), multiset(s.pending), live - {item}, item);
      }
    } else {
      RemoveFromPage(r, live, pageSize, item, FindPage(r.pages, item, |r.pages|));
    }
  }

  /** The pages without one item, and without a page that it leaves empty. */
  function PagesWithout(pages: seq<Page>, item: RemoteFileItem): seq<Page> {
    if pages == [] then []
    else (if pages[0] == {item} then [] else [pages[0] - {item}]) + PagesWithout(pages[1..], item)
  }

  lemma {:induction false} PagesWithoutNone(pages: seq<Page>, item: RemoteFileItem)
    requires forall j :: 0 <= j < |pages| ==> item !in pages[j]
    ensures PagesWithout(pages, item) == pages
  {
    if pages != [] {
      PagesWithoutNone(pages[1..], item);
      assert pages[0] - {item} == pages[0];
    }
  }

  lemma {:induction false} PagesWithoutAt(pages: seq<Page>, item: RemoteFileItem, i: nat)
    requires i < |pages| && forall j :: 0 <= j < |pages| && j != i ==> item !in pages[j]
    ensures PagesWithout(pages, item) ==
      if pages[i] == {item} then pages[..i] + pages[i + 1..] else pages[i := pages[i] - {item}]
  {
    if i == 0 {
      PagesWithoutNone(pages[1..], item);
    } else {
      PagesWithoutAt(pages[1..], item, i - 1);
      assert pages[0] - {item} == pages[0];
    }
  }

  lemma RemoveFromLarger(r: Results, i: nat, item: RemoteFileItem)
    requires i < |r.pages| && item in r.pages[i] && r.pages[i] != {item}
    requires r.current < |r.pages| && r.view == multiset(r.pages[r.current])
    requires i != r.current ==> item !in r.pages[r.current]
    ensures var s := RemoveFrom(r, i, item);
            && s.pages == r.pages[i := r.pages[i] - {item}] && s.pending == r.pending
            && s.view == r.view - multiset{item} && s.current == r.current
  {
    assert r.pages[i] == {item} + (r.pages[i] - {item});
    if i != r.current {
      assert r.view[item] == 0;
    }
  }

  lemma RemoveFromLast(r: Results, i: nat, item: RemoteFileItem)
    requires i < |r.pages| && r.pages[i] == {item}
    requires r.current < |r.pages| && r.view == multiset(r.pages[r.current])
    requires i != r.current ==> item !in r.pages[r.current]
    ensures var s := RemoveFrom(r, i, item);
            && s.pages == r.pages[..i] + r.pages[i + 1..] && s.pending == r.pending
            && (i != r.current ==>
                  s.view == r.view - multiset{item} && PageOrNothing(s.pages, s.current) == r.pages[r.current])
            && (i == r.current ==>
                  && s.current == (if r.current > 0 then r.current - 1 else 0)
                  && s.view == multiset(PageOrNothing(s.pages, s.current)))
  {
    if i != r.current {
      assert r.view[item] == 0;
    }
  }

  /** What is shown after a removal. The pages keep their order. Unless the item was the last
      one of the page that is shown, that page stays shown, without the item. If it was, the
      page before is shown, or the first of the others where there is none before. */
  lemma RemoveShows(r: Results, live: set<RemoteFileItem>, pageSize: nat, item: RemoteFileItem)
    requires Inv(r, live, pageSize) && item in live && item !in r.pending
    ensures var s, shown := Remove(r, item), PageOrNothing(r.pages, r.current);
            && s.pages == PagesWithout(r.pages, item) && s.pending == r.pending
            && (shown != {item} ==>
                  && s.view == r.view - multiset{item}
                  && PageOrNothing(s.pages, s.current) == shown - {item})
            && (shown == {item} ==>
                  && s.current == (if r.current > 0 then r.current - 1 else 0)
                  && s.view == multiset(PageOrNothing(r.pages, if r.current > 0 then r.current - 1 else 1)))
  {
    hide Inv, Sum, RemoveFrom, FindPage, PagesWithout;
    var i := FindPage(r.pages, item, |r.pages|);
    IsOnePage(r, live, pageSize, item);
    PagesWithoutAt(r.pages, item, i);
    if r.pages[i] == {item} {
      RemoveFromLast(r.(bytes := r.bytes - item.Bytes()), i, item);
    } else {
      RemoveFromLarger(r.(bytes := r.bytes - item.Bytes()), i, item);
    }
  }

  lemma IsOnePage(r: Results, live: set<RemoteFileItem>, pageSize: nat, item: RemoteFileItem)
    requires Inv(r, live, pageSize) && item in live && item !in r.pending
    ensures var i := FindPage(r.pages, item, |r.pages|);
            && 0 <= i && r.current < |r.pages| && r.view == multiset(r.pages[r.current])
            && forall j :: 0 <= j < |r.pages| && j != i ==> item !in r.pages[j]
  {
    FindsPage(r.pages, item, |r.pages|);
    assert r.pages[..|r.pages|] == r.pages;
    OnceInSum(PageItems(r.pages), multiset(r.pending), live, item);
    PagesAreDisjoint(r, live, pageSize);
  }

  /** ClearResults empties everything but the pending adds. */
  lemma ClearKeepsInvIff(r: Results, live: set<RemoteFileItem>, pageSize: nat)
    requires Inv(r, live, pageSize)
    ensures Inv(Clear(r), {}, pageSize) <==> r.pending == []
    ensures Clear(r) == Results([], 0, multiset{}, r.pending, 0)
  {
    var none: set<RemoteFileItem> := {};
    if r.pending != [] {
      assert r.pending[0] in multiset(r.pending);
      assert multiset(r.pending)[r.pending[0]] > 0;
    }
    assert multiset(none) == multiset{} && Clear(r) == Results([], 0, multiset(none), r.pending, 0);
    assert PageItems([]) + multiset(r.pending) == multiset(r.pending);
  }

  // ---------- Whole runs ----------

  datatype Event =
    | AddItem(item: RemoteFileItem)
    | EndBatchUpdate
    | RemoveItem(item: RemoteFileItem)
    | SwitchPage(page: int)
    | ClearAll

  function Apply(r: Results, e: Event, pageSize: nat): Results
    requires pageSize > 0
  {
    match e
    case AddItem(item) => Add(r, item)
    case EndBatchUpdate => EndBatch(r, pageSize)
    case RemoveItem(item) => Remove(r, item)
    case SwitchPage(page) => Switch(r, page)
    case ClearAll => Clear(r)
  }

  /** The plain set of known files. */
  function Known(live: set<RemoteFileItem>, e: Event): set<RemoteFileItem> {
    match e
    case AddItem(item) => live + {item}
    case RemoveItem(item) => live - {item}
    case ClearAll => {}
    case _ => live
  }

  /** An added item is new, a removed one is known. */
  predicate Sensible(live: set<RemoteFileItem>, e: Event) {
    && (e.AddItem? ==> e.item !in live)
    && (e.RemoveItem? ==> e.item in live)
  }

  /** The batch that added an item has ended before the item goes away. */
  predicate BatchEnded(r: Results, e: Event) {
    && (e.RemoveItem? ==> e.item !in r.pending)
    && (e.ClearAll? ==> r.pending == [])
  }

  /** Every operation keeps the invariant if and only if it takes no pending item away. */
  lemma StepKeepsInvIff(r: Results, live: set<RemoteFileItem>, pageSize: nat, e: Event)
    requires pageSize > 0 && Inv(r, live, pageSize) && Sensible(live, e)
    ensures Inv(Apply(r, e, pageSize), Known(live, e), pageSize) <==> BatchEnded(r, e)
  {
    hide Inv, Add, EndBatch, Remove, Switch, Clear;
    match e
    case AddItem(item) => AddKeepsInv(r, live, pageSize, item);
    case EndBatchUpdate => EndBatchKeepsInv(r, live, pageSize);
    case RemoveItem(item) => RemoveKeepsInvIff(r, live, pageSize, item);
    case SwitchPage(page) => SwitchKeepsInv(r, live, pageSize, page);
    case ClearAll => ClearKeepsInvIff(r, live, pageSize);
  }

  datatype Run = Run(results: Results, live: set<RemoteFileItem>)

  /** The state after a run that starts without results, if every step of it is allowed. */
  function After(pageSize: nat, events: seq<Event>): Option<Run>
    requires pageSize > 0
  {
    if events == [] then Some(Run(Results([], 0, multiset{}, [], 0), {}))
    else
      var e := events[|events| - 1];
      match After(pageSize, events[..|events| - 1])
      case None => None
      case Some(run) =>
        if Sensible(run.live, e) && BatchEnded(run.results, e) then
          Some(Run(Apply(run.results, e, pageSize), Known(run.live, e)))
        else None
  }

  /** Whatever the order of adds, batch ends, removals, page switches and clears, the
      results agree with the plain set of known files after every one of them. */
  lemma {:induction false} RunKeepsInv(pageSize: nat, events: seq<Event>)
    requires pageSize > 0 && After(pageSize, events).Some?
    ensures var run := After(pageSize, events).value; Inv(run.results, run.live, pageSize)
  {
    hide Inv, Apply, Known, Sensible, BatchEnded;
    if events == [] {
      EmptyInv(pageSize);
    } else {
      RunKeepsInv(pageSize, events[..|events| - 1]);
      var run := After(pageSize, events[..|events| - 1]).value;
      StepKeepsInvIff(run.results, run.live, pageSize, events[|events| - 1]);
    }
  }

  lemma EmptyInv(pageSize: nat)
    ensures Inv(Results([], 0, multiset{}, [], 0), {}, pageSize)
  {
  }

  lemma {:induction false} FillPlacesAll(pages: seq<Page>, addPage: nat, items: seq<RemoteFileItem>, current: nat,
                                         pageSize: nat, item: RemoteFileItem)
    requires addPage <= |pages| && pageSize > 0 && item in items
    ensures item in PageItems(FillPages(pages, addPage, items, current, pageSize).pages)
    decreases |items|, |pages| - addPage
  {
    if addPage < |pages| && |pages[addPage]| >= pageSize {
      FillPlacesAll(pages, addPage + 1, items, current, pageSize, item);
    } else if items[0] == item {
      FillGrows(Place(pages, addPage, item), addPage, items[1..], current, pageSize, addPage);
      PageItemsAt(FillPages(pages, addPage, items, current, pageSize).pages, addPage, item);
    } else {
      FillPlacesAll(Place(pages, addPage, items[0]), addPage, items[1..], current, pageSize, item);
    }
  }

  /** What goes wrong otherwise: a file replaced within one batch comes back on a page
      when the batch ends, although it is no longer known. */
  lemma PendingRemovedItemReturns(r: Results, item: RemoteFileItem, pageSize: nat)
    requires pageSize > 0 && item in r.pending
    ensures item in PageItems(EndBatch(Remove(r, item), pageSize).pages)
  {
    var s := Remove(r, item);
    FillPlacesAll(s.pages, 0, s.pending, s.current, pageSize, item);
  }
}
