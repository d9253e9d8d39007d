/**
 * Site footer (`components/core/footer.tsx`): the navigation grid's column
 * count and classes, the column span of the last section, which links open
 * in a new tab, and the clock's placeholder. The clock itself (an interval
 * formatting the current time in India Standard Time) is outside the model:
 * its current text is an input.
 */
module Footer {
  import opened Wrappers
  import opened TextUtil

  datatype NavItem = NavItem(title: string, href: string)
  datatype NavSection = NavSection(title: string, items: seq<NavItem>)

  /** `isExternalLink`. */
  predicate IsExternalLink(href: string) {
    StartsWith(href, "http://") || StartsWith(href, "https://")
  }

  /** `gridCols`: one column for no sections, otherwise one per section up to three. */
  function GridCols(n: nat): (cols: nat)
    ensures 1 <= cols <= 3
    ensures n > 0 ==> cols <= n
  {
    if n == 0 then 1 else if n < 3 then n else 3
  }

  /** `gridColsClass`. */
  function GridColsClass(cols: nat): string {
    if cols == 1 then "grid-cols-1" else if cols == 2 then "grid-cols-2" else "grid-cols-2 sm:grid-cols-3"
  }

  const SpanClass: string := "col-span-2 sm:col-span-1"

  /** The extra class of section `index` out of `n`. */
  function SectionSpan(index: nat, n: nat): string {
    if index == n - 1 && n > 2 then SpanClass else ""
  }

  /**
   * The grid has as many columns as sections up to three (the three-column
   * class switching to two on small screens), and a section spans two
   * columns on small screens exactly when it is the last one and the grid
   * is the three-column one; with one or two sections nothing spans.
   */
  lemma GridRules(n: nat, index: nat)
    requires index < n
    ensures n <= 3 ==> GridCols(n) == n
    ensures n >= 3 ==> GridCols(n) == 3
    ensures SectionSpan(index, n) == SpanClass <==> index == n - 1 && GridColsClass(GridCols(n)) == "grid-cols-2 sm:grid-cols-3"
    ensures SectionSpan(index, n) != SpanClass ==> SectionSpan(index, n) == ""
  {
    assert "grid-cols-1" != "grid-cols-2 sm:grid-cols-3";
    assert "grid-cols-2" != "grid-cols-2 sm:grid-cols-3";
  }

  /** The attributes spread onto a link: a new tab for external links only. */
  datatype LinkView = LinkView(href: string, title: string, newTab: Option<(string, string)>)

  function RenderLink(item: NavItem): (v: LinkView)
    ensures v.href == item.href && v.title == item.title
    ensures v.newTab.Some? <==> IsExternalLink(item.href)
    ensures v.newTab.Some? ==> v.newTab.value == ("_blank", "noopener noreferrer")
  {
    LinkView(item.href, item.title,
      if IsExternalLink(item.href) then Some(("_blank", "noopener noreferrer")) else None)
  }

  /** Only absolute http(s) URLs are external: relative paths and other schemes stay in the tab. */
  lemma ExternalExamples()
    ensures IsExternalLink("https://github.com/ezDecode")
    ensures !IsExternalLink("/docs/components/filter-chips")
    ensures !IsExternalLink("mailto:someone@example.com")
    ensures !IsExternalLink("httpx://host")
  {
    assert "https://github.com/ezDecode"[..8] == "https://";
    assert "/docs/components/filter-chips"[..7][0] != "http://"[0];
    assert "/docs/components/filter-chips"[..8][0] != "https://"[0];
    assert "mailto:someone@example.com"[..7][0] != "http://"[0];
    assert "mailto:someone@example.com"[..8][0] != "https://"[0];
    assert "httpx://host"[..7][4] != "http://"[4];
    assert "httpx://host"[..8][4] != "https://"[4];
  }

  datatype SectionView = SectionView(title: string, spanClass: string, links: seq<LinkView>)

  datatype FooterView = FooterView(grid: Option<(string, seq<SectionView>)>, clock: string)

  function RenderSection(s: NavSection, index: nat, n: nat): (v: SectionView)
    ensures v.title == s.title && |v.links| == |s.items|
    ensures forall k :: 0 <= k < |s.items| ==> v.links[k] == RenderLink(s.items[k])
  {
    SectionView(s.title, SectionSpan(index, n), seq(|s.items|, k requires 0 <= k < |s.items| => RenderLink(s.items[k])))
  }

  /** `Footer`: `navigation` defaults to no sections; `time` is the clock state, empty before its first tick. */
  function RenderFooter(navigation: Option<seq<NavSection>>, time: string): (v: FooterView)
  {
    var nav := Coalesce(navigation, []);
    var n := |nav|;
    var grid := if n > 0 then
        Some(("grid " + GridColsClass(GridCols(n)) + " gap-8",
              seq(n, i requires 0 <= i < n => RenderSection(nav[i], i, n))))
      else None;
    FooterView(grid, (if time != "" then time else "00:00:00") + " IST")
  }

  /**
   * No grid is rendered without sections; otherwise the grid carries its
   * column class and one column per section in order, each with its links,
   * and only the last one spans, when there are more than two. Before the first tick
   * the clock reads "00:00:00 IST".
   */
  lemma FooterRules(navigation: Option<seq<NavSection>>, time: string)
    ensures var v := RenderFooter(navigation, time);
      var nav := Coalesce(navigation, []);
      && (v.grid.None? <==> |nav| == 0)
      && (v.grid.Some? ==>
            && |v.grid.value.1| == |nav|
            && (forall i :: 0 <= i < |nav| ==> v.grid.value.1[i].title == nav[i].title)
            && v.grid.value.0 == "grid " + GridColsClass(GridCols(|nav|)) + " gap-8"
            && (forall i :: 0 <= i < |nav| ==> v.grid.value.1[i] == RenderSection(nav[i], i, |nav|))
            && (forall i :: 0 <= i < |nav| - 1 ==> v.grid.value.1[i].spanClass == "")
            && v.grid.value.1[|nav| - 1].spanClass == (if |nav| > 2 then SpanClass else ""))
      && (time == "" ==> v.clock == "00:00:00 IST")
      && (time != "" ==> v.clock == time + " IST")
  {
  }
}
