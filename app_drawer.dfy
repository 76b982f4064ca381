/** The app drawer (src-client/ui/appDrawer.js): the page it shows and the
    pages it lays the launcher apps out on. The grid and dot elements are
    the values the operations return; transforms, titles and click
    listeners are not part of this model. */
module AppDrawer {
  import opened Wrappers
  import opened ClientState

  // ---------------------------------------------------------------------
  // `showPage`
  // ---------------------------------------------------------------------

  /** The page `showPage` settles on: `None` is a page that is not a number
      (`NaN`); non-positive pages become 1, pages beyond a known page count
      become the last page, and with no pages the page is 1. */
  function Target(totalPages: int, page: Option<int>): int
  {
    var t := if page.None? || page.value <= 0 then 1 else page.value;
    var t := if t > totalPages && totalPages > 0 then totalPages else t;
    if totalPages == 0 then 1 else t
  }

  /** The page shown is always a page of the drawer (page 1 when it has
      none); a page of the drawer is shown as asked; clamping twice is
      clamping once. */
  lemma TargetRules(totalPages: int, page: Option<int>)
    ensures var t := Target(totalPages, page);
      (totalPages > 0 ==> 1 <= t <= totalPages)
      && (totalPages <= 0 ==> t >= 1)
      && (totalPages == 0 ==> t == 1)
      && (page.None? ==> t == 1)
      && (page.Some? && 1 <= page.value && (page.value <= totalPages || totalPages < 0) ==> t == page.value)
      && (page.Some? && page.value > totalPages > 0 ==> t == totalPages)
      && Target(totalPages, Some(t)) == t
  {
  }

  /** `showPage(pageNumber)`: the page is clamped step by step and becomes
      `currentPage`; the index of the dot marked active is returned. */
  method ShowPage(g: GlobalState, pageNumber: Option<int>) returns (activeDot: int)
    modifies g
    ensures g.Snap() == old(g.Snap()).(currentPage := Target(old(g.totalPages), pageNumber))
    ensures activeDot == g.currentPage - 1
  {
    var targetPage := if pageNumber.Some? then pageNumber.value else 0;
    if pageNumber.None? || targetPage <= 0 {
      targetPage := 1;
    }
    if targetPage > g.totalPages && g.totalPages > 0 {
      targetPage := g.totalPages;
    }
    if g.totalPages == 0 {
      targetPage := 1;
    }
    activeDot := targetPage - 1;
    g.currentPage := targetPage;
  }

  /** Opening the drawer shows `currentPage || 1`. */
  method OpenAppDrawer(g: GlobalState)
    modifies g
    ensures g.Snap() == old(g.Snap()).(currentPage := Target(old(g.totalPages),
                                        Some(if old(g.currentPage) == 0 then 1 else old(g.currentPage))))
  {
    var _ := ShowPage(g, Some(if g.currentPage == 0 then 1 else g.currentPage));
  }

  // ---------------------------------------------------------------------
  // `renderAppDrawer`
  // ---------------------------------------------------------------------

  /** `Array.prototype.slice(start, end)` for non-negative bounds: the
      bounds are cut down to the length. */
  function Slice<T>(s: seq<T>, start: nat, end: nat): (r: seq<T>)
    ensures start <= end <= |s| ==> r == s[start..end]
    ensures end <= start || |s| <= start ==> r == []
  {
    var b := if end < |s| then end else |s|;
    var a := if start < b then start else b;
    s[a..b]
  }

  /** The first `n` pages of `perPage` apps each. */
  function Pages(apps: seq<App>, n: nat, perPage: nat): (r: seq<seq<App>>)
    ensures |r| == n
  {
    if n == 0 then [] else Pages(apps, n - 1, perPage) + [Slice(apps, (n - 1) * perPage, n * perPage)]
  }

  /** The apps of the pages, one after the other. */
  function Flatten(pages: seq<seq<App>>): seq<App>
  {
    if pages == [] then [] else Flatten(pages[..|pages| - 1]) + pages[|pages| - 1]
  }

  function Min(a: nat, b: nat): nat { if a < b then a else b }

  /** The first `n` pages of `perPage` apps hold the first `n * perPage`
      apps (all of them when there are fewer), each once and in order. */
  lemma {:induction false} PagesCover(apps: seq<App>, n: nat, perPage: nat)
    ensures Flatten(Pages(apps, n, perPage)) == apps[..Min(n * perPage, |apps|)]
  {
    if n > 0 {
      PagesCover(apps, n - 1, perPage);
      var pages := Pages(apps, n, perPage);
      assert pages[..n - 1] == Pages(apps, n - 1, perPage);
      var lo := Min((n - 1) * perPage, |apps|);
      var hi := Min(n * perPage, |apps|);
      assert (n - 1) * perPage <= n * perPage;
      assert Slice(apps, (n - 1) * perPage, n * perPage) == apps[lo..hi];
      assert apps[..lo] + apps[lo..hi] == apps[..hi];
    }
  }

  /** What the drawer lays out: the apps of each page and the number of
      pagination dots. */
  datatype Layout = Layout(state: Globals, pages: seq<seq<App>>, dots: nat)

  /** `renderAppDrawer(apps)`: all apps go on one page (none when there are
      no apps), dots appear only for more than one page, and the current
      page is clamped again and shown. */
  function Render(g: Globals, apps: Option<seq<App>>): (l: Layout)
    ensures var all := if apps.Some? then apps.value else [];
      l.state.allApps == all
      && l.state.totalPages == (if all == [] then 0 else 1)
      && l.state.appsPerPage == |all|
      && l.state == g.(allApps := all, totalPages := l.state.totalPages, appsPerPage := |all|,
                       currentPage := l.state.currentPage)
  {
    var all := if apps.Some? then apps.value else [];
    var total := if |all| > 0 then 1 else 0;
    var per := |all|;
    Layout(g.(allApps := all, totalPages := total, appsPerPage := per,
              currentPage := Target(total, Some(Reclamped(total, g.currentPage)))),
           Pages(all, total, per), DotCount(total))
  }

  /** The current page as the render clamps it before showing it. */
  function Reclamped(totalPages: int, page: int): int
  {
    if page > totalPages && totalPages > 0 then totalPages
    else if page <= 0 && totalPages > 0 then 1
    else if totalPages == 0 then 1
    else page
  }

  /** The number of pagination dots. */
  function DotCount(totalPages: int): nat
  {
    if totalPages > 1 then totalPages else 0
  }

  /** After a render every app is on a page exactly once and in order,
      there are no dots, and page 1 is shown. */
  lemma RenderRules(g: Globals, apps: Option<seq<App>>)
    ensures var l := Render(g, apps);
      Flatten(l.pages) == l.state.allApps
      && |l.pages| == l.state.totalPages
      && l.dots == 0
      && l.state.currentPage == 1
  {
    var l := Render(g, apps);
    PagesCover(l.state.allApps, l.state.totalPages, l.state.appsPerPage);
  }

  /** The pages are built by a loop of slices. */
  method BuildPages(apps: seq<App>, total: nat, perPage: nat) returns (pages: seq<seq<App>>)
    ensures pages == Pages(apps, total, perPage)
  {
    pages := [];
    var i := 0;
    while i < total
      invariant 0 <= i <= total
      invariant pages == Pages(apps, i, perPage)
    {
      var start := i * perPage;
      var end := (i + 1) * perPage;
      var b := if end < |apps| then end else |apps|;
      var a := if start < b then start else b;
      pages := pages + [apps[a..b]];
      i := i + 1;
    }
  }

  /** The layout a render computes before it writes the drawer's fields:
      the apps, the page count and size, the pages, the dots and the
      re-clamped current page. */
  method PlanRender(apps: Option<seq<App>>, current: int)
    returns (all: seq<App>, total: nat, per: nat, pages: seq<seq<App>>, dots: nat, page: int)
    ensures all == (if apps.Some? then apps.value else [])
    ensures total == (if all == [] then 0 else 1) && per == |all|
    ensures pages == Pages(all, total, per) && dots == DotCount(total)
    ensures page == Reclamped(total, current)
  {
    all := if apps.Some? then apps.value else [];
    total, per := 0, 0;
    if |all| > 0 {
      total, per := 1, |all|;
    }
    pages := BuildPages(all, total, per);
    dots := DotCount(total);
    page := current;
    if page > total && total > 0 {
      page := total;
    } else if page <= 0 && total > 0 {
      page := 1;
    } else if total == 0 {
      page := 1;
    }
  }

  /** `renderAppDrawer(apps)`. */
  method RenderAppDrawer(g: GlobalState, apps: Option<seq<App>>) returns (pages: seq<seq<App>>, dots: nat)
    modifies g
    ensures Layout(g.Snap(), pages, dots) == Render(old(g.Snap()), apps)
  {
    var all, total, per, page;
    all, total, per, pages, dots, page := PlanRender(apps, g.currentPage);
    g.allApps, g.totalPages, g.appsPerPage, g.currentPage := all, total, per, page;
    assert g.Snap() == old(g.Snap()).(allApps := all, totalPages := total, appsPerPage := per, currentPage := page);
    var _ := ShowPage(g, Some(page));
  }
}
