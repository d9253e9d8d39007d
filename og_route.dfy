/**
 * The Open Graph image route (`app/api/og/route.tsx`): which title, subtitle
 * and icon the generated image carries, chosen from the query string, the
 * environment and whether the fonts could be fetched. Fetching fonts and
 * drawing the image are outside the model; their outcome is an input.
 */
module OgRoute {
  import opened Wrappers
  import opened TextUtil
  import ComponentsLib

  /** `siteConfig.url`. */
  const SiteUrl: string := "https://ui.creativesky.me"
  const LogoPath: string := "/media/img_logo.png"
  const Width: nat := 1200
  const Height: nat := 630

  const DefaultTitle: string := "Skie — Component Library"
  const DocsSubtitle: string := "Skie — Design Engineer"
  const ComponentSubtitle: string := "Skie Component"
  const DefaultSubtitle: string := "ui.creativesky.me"
  const FailureBody: string := "Failed to generate the image"

  /** The three query parameters the route reads; `None` when absent. */
  datatype Query = Query(typeParam: Option<string>, title: Option<string>, name: Option<string>)

  /** The parts of the request URL the route reads. */
  datatype RequestUrl = RequestUrl(protocol: string, host: string)

  datatype Response =
    | Image(iconUrl: string, title: string, subtitle: string, width: nat, height: nat)
    | Failure(status: nat, body: string)

  /**
   * `getDisplayTitle`. The type is whatever string the query held (the cast
   * to the three known types is unchecked), so every other string takes the
   * default branch. The component branch repeats `formatTitle`.
   */
  function GetDisplayTitle(typ: string, title: string, componentName: string): string {
    if typ == "docs" then title
    else if typ == "component" then ComponentsLib.FormatTitle(componentName)
    else DefaultTitle
  }

  /** `getSubtitle`. */
  function GetSubtitle(typ: string): string {
    if typ == "docs" then DocsSubtitle
    else if typ == "component" then ComponentSubtitle
    else DefaultSubtitle
  }

  /**
   * The title for docs is the title parameter verbatim; for a component it is
   * the name in title case, character for character; any other type gives
   * the fixed library title whatever the other parameters say.
   */
  lemma DisplayTitleByType(typ: string, title: string, name: string)
    ensures typ == "docs" ==> GetDisplayTitle(typ, title, name) == title
    ensures typ == "component" ==> GetDisplayTitle(typ, title, name) == ComponentsLib.TitleCase(name)
    ensures typ == "component" ==> |GetDisplayTitle(typ, title, name)| == |name|
    ensures typ != "docs" && typ != "component" ==>
      GetDisplayTitle(typ, title, name) == DefaultTitle && GetSubtitle(typ) == DefaultSubtitle
  {
    ComponentsLib.FormatTitleIsTitleCase(name);
  }

  /** The three subtitles are pairwise different, so the subtitle identifies the type's branch. */
  lemma SubtitleIdentifiesBranch(t1: string, t2: string)
    ensures GetSubtitle(t1) == GetSubtitle(t2) <==>
      (t1 == "docs" && t2 == "docs") || (t1 == "component" && t2 == "component")
      || (t1 != "docs" && t1 != "component" && t2 != "docs" && t2 != "component")
  {
    assert DocsSubtitle[0] != ComponentSubtitle[0] || DocsSubtitle[5] != ComponentSubtitle[5];
    assert DocsSubtitle[0] != DefaultSubtitle[0];
    assert ComponentSubtitle[0] != DefaultSubtitle[0];
  }

  /** `baseUrl`: the request's own origin in development, the site URL otherwise. */
  function BaseUrl(development: bool, req: RequestUrl): string {
    if development then req.protocol + "//" + req.host else SiteUrl
  }

  /** `iconUrl`: the logo under the base URL. */
  function IconUrl(development: bool, req: RequestUrl): string {
    BaseUrl(development, req) + LogoPath
  }

  /** Outside development the icon never depends on the request. */
  lemma ProductionIconIsFixed(r1: RequestUrl, r2: RequestUrl)
    ensures IconUrl(false, r1) == IconUrl(false, r2) == "https://ui.creativesky.me/media/img_logo.png"
  {
  }

  /**
   * `GET`: defaults the parameters with `||` (type "default", empty title and
   * name), then draws the image, or answers 500 when loading the fonts fails.
   */
  function Get(q: Query, development: bool, req: RequestUrl, fontsLoaded: bool): (r: Response)
    ensures !fontsLoaded <==> r == Failure(500, FailureBody)
    ensures r.Image? ==> r.width == Width && r.height == Height
    ensures r.Image? ==> StartsWith(r.iconUrl, BaseUrl(development, req)) && r.iconUrl == IconUrl(development, req)
    ensures r.Image? && q.typeParam == Some("docs") ==>
      r.title == OrElse(q.title, "") && r.subtitle == DocsSubtitle
    ensures r.Image? && q.typeParam == Some("component") ==>
      r.title == ComponentsLib.TitleCase(OrElse(q.name, "")) && r.subtitle == ComponentSubtitle
    ensures r.Image? && q.typeParam != Some("docs") && q.typeParam != Some("component") ==>
      r.title == DefaultTitle && r.subtitle == DefaultSubtitle
  {
    ComponentsLib.FormatTitleIsTitleCase(OrElse(q.name, ""));
    var typ := OrElse(q.typeParam, "default");
    var title := OrElse(q.title, "");
    var name := OrElse(q.name, "");
    var icon := IconUrl(development, req);
    assert icon[..|BaseUrl(development, req)|] == BaseUrl(development, req);
    if fontsLoaded then
      Image(icon, GetDisplayTitle(typ, title, name), GetSubtitle(typ), Width, Height)
    else
      Failure(500, FailureBody)
  }

  /** A request with no parameters gets the library's default card. */
  lemma NoParamsGivesDefaultCard(development: bool, req: RequestUrl)
    ensures Get(Query(None, None, None), development, req, true)
         == Image(IconUrl(development, req), DefaultTitle, DefaultSubtitle, Width, Height)
  {
  }

  /** An empty parameter counts as missing: `?type=&name=` behaves like no parameters at all. */
  lemma EmptyParamsAreMissing(q: Query, development: bool, req: RequestUrl, fontsLoaded: bool)
    requires !Truthy(q.typeParam) && !Truthy(q.title) && !Truthy(q.name)
    ensures Get(q, development, req, fontsLoaded) == Get(Query(None, None, None), development, req, fontsLoaded)
  {
  }

  /** An empty parameter reads as a missing one. */
  function Present(o: Option<string>): (r: Option<string>)
    ensures r.None? <==> !Truthy(o)
    ensures r.Some? ==> r == o
  {
    if Truthy(o) then o else None
  }

  /**
   * Each parameter is defaulted on its own: emptying any one of them, whatever
   * the others hold, is the same as leaving it out.
   */
  lemma EachParamDefaultsAlone(q: Query, development: bool, req: RequestUrl, fontsLoaded: bool)
    ensures Get(q, development, req, fontsLoaded)
         == Get(Query(Present(q.typeParam), Present(q.title), Present(q.name)), development, req, fontsLoaded)
  {
  }

  /** A docs card with no title parameter shows an empty title. */
  lemma DocsWithoutTitle(development: bool, req: RequestUrl)
    ensures Get(Query(Some("docs"), None, None), development, req, true).title == ""
    ensures Get(Query(Some("docs"), None, None), development, req, true).subtitle == DocsSubtitle
  {
  }
}
