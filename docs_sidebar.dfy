/**
 * Documentation sidebar (`components/core/docs-sidebar-client.tsx`): which
 * section headings and item lists show, which items leave the site, which
 * item is highlighted as the current page, and which icon an item gets.
 * The current path name comes from the router and is an input.
 */
module DocsSidebar {
  import opened Wrappers
  import opened TextUtil
  import Footer

  datatype SidebarItem = SidebarItem(title: string, href: string)

  /** A navigation section; its `items` may be missing. */
  datatype Section = Section(title: string, items: Option<seq<SidebarItem>>)

  datatype PageIcon = Home | Shapes | Download | Status | Map | UserLove | ImageComposition
  datatype SocialIcon = Twitter | Discord

  /** `pageIcons`, keyed by exact page title. */
  const PageIcons: map<string, PageIcon> := map[
    "Introduction" := Home,
    "Components" := Shapes,
    "Installation" := Download,
    "Status - Beta" := Status,
    "Roadmap" := Map,
    "Contributors" := UserLove,
    "Gallery" := ImageComposition]

  /** `socialIcons`, keyed by exact item title. */
  const SocialIcons: map<string, SocialIcon> := map["Twitter" := Twitter, "Discord" := Discord]

  function Lookup<V>(m: map<string, V>, key: string): (r: Option<V>)
    ensures r.Some? <==> key in m
    ensures r.Some? ==> r.value == m[key]
  {
    if key in m then Some(m[key]) else None
  }

  /** A section shows its heading when the title is non-empty and is not "Socials". */
  predicate ShowHeading(title: string) {
    |title| > 0 && title != "Socials"
  }

  /** The item list renders only when items exist and are non-empty. */
  predicate ShowItems(items: Option<seq<SidebarItem>>) {
    items.Some? && |items.value| > 0
  }

  /** `item.href.startsWith("http")`. */
  predicate IsExternal(href: string) {
    StartsWith(href, "http")
  }

  datatype ItemView =
    | ExternalLink(href: string, title: string, target: string, rel: string, pageIcon: Option<PageIcon>, socialIcon: Option<SocialIcon>)
    | InternalLink(href: string, title: string, active: bool, pageIcon: Option<PageIcon>, socialIcon: Option<SocialIcon>)

  function RenderItem(item: SidebarItem, pathname: string): ItemView {
    var icon := Lookup(PageIcons, item.title);
    var social := Lookup(SocialIcons, item.title);
    if IsExternal(item.href) then
      ExternalLink(item.href, item.title, "_blank", "noopener noreferrer", icon, social)
    else
      InternalLink(item.href, item.title, pathname == item.href, icon, social)
  }

  /**
   * An item is an external anchor, opening a new tab without opener or
   * referrer, exactly when its href starts with "http"; only internal items
   * can be highlighted, and one is exactly when the current path is its href.
   */
  lemma ItemRules(item: SidebarItem, pathname: string)
    ensures var v := RenderItem(item, pathname);
      && v.href == item.href && v.title == item.title
      && (v.ExternalLink? <==> IsExternal(item.href))
      && (v.ExternalLink? ==> v.target == "_blank" && v.rel == "noopener noreferrer")
      && (v.InternalLink? ==> (v.active <==> pathname == item.href))
  {
  }

  /** At most one item of a section is highlighted when their hrefs are distinct. */
  lemma OneActiveItem(items: seq<SidebarItem>, pathname: string, i: nat, j: nat)
    requires forall a, b :: 0 <= a < b < |items| ==> items[a].href != items[b].href
    requires i < |items| && j < |items|
    requires RenderItem(items[i], pathname).InternalLink? && RenderItem(items[i], pathname).active
    requires RenderItem(items[j], pathname).InternalLink? && RenderItem(items[j], pathname).active
    ensures i == j
  {
    assert items[i].href == pathname == items[j].href;
  }

  /**
   * Icons are looked up by exact title: the seven page titles get their page
   * icon, "Twitter" and "Discord" their social icon, no title gets both, and
   * every other title (including a differently capitalised one) gets none.
   */
  lemma IconRules(title: string)
    ensures Lookup(PageIcons, title).Some? ==> Lookup(SocialIcons, title).None?
    ensures title !in PageIcons && title !in SocialIcons ==>
      Lookup(PageIcons, title).None? && Lookup(SocialIcons, title).None?
    ensures Lookup(PageIcons, "Introduction") == Some(Home)
    ensures Lookup(PageIcons, "introduction").None?
    ensures Lookup(SocialIcons, "Discord") == Some(Discord)
  {
    assert "introduction"[0] != "Introduction"[0];
    if title in PageIcons {
      assert title[0] != 'T' && title[0] != 'D';
    }
  }

  datatype SectionView = SectionView(heading: Option<string>, items: Option<seq<ItemView>>)

  function RenderSection(s: Section, pathname: string): SectionView {
    SectionView(
      if ShowHeading(s.title) then Some(s.title) else None,
      if ShowItems(s.items) then
        Some(seq(|s.items.value|, k requires 0 <= k < |s.items.value| => RenderItem(s.items.value[k], pathname)))
      else None)
  }

  /**
   * A section renders its heading (its title) and its list (one item view
   * per item, in order) independently, each under its own rule.
   */
  lemma SectionRules(s: Section, pathname: string)
    ensures RenderSection(s, pathname).heading.Some? <==> s.title != "" && s.title != "Socials"
    ensures RenderSection(s, pathname).items.Some? <==> s.items.Some? && s.items.value != []
    ensures RenderSection(s, pathname).heading.Some? ==> RenderSection(s, pathname).heading.value == s.title
    ensures RenderSection(s, pathname).items.Some? ==> |RenderSection(s, pathname).items.value| == |s.items.value|
    ensures RenderSection(s, pathname).items.Some? ==>
      forall k :: 0 <= k < |s.items.value| ==> RenderSection(s, pathname).items.value[k] == RenderItem(s.items.value[k], pathname)
  {
  }

  /**
   * The sidebar's test is looser than the footer's: every link the footer
   * opens in a new tab does so here too, but an href such as
   * "httpdocs/intro" or "httpx://host" is external here and internal there.
   */
  lemma SidebarExternalIsLooser()
    ensures forall href :: Footer.IsExternalLink(href) ==> IsExternal(href)
    ensures IsExternal("httpx://host") && !Footer.IsExternalLink("httpx://host")
  {
    forall href | Footer.IsExternalLink(href)
      ensures IsExternal(href)
    {
      if StartsWith(href, "http://") {
        assert href[..4] == href[..7][..4];
      } else {
        assert href[..4] == href[..8][..4];
      }
    }
    assert "httpx://host"[..4] == "http";
    assert "httpx://host"[..7][4] != "http://"[4];
    assert "httpx://host"[..8][4] != "https://"[4];
  }
}
