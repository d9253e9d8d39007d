/**
 * Smart Favicon: the ordered list of favicon candidates derived from a URL,
 * and the fallback level that advances through it on each image load error.
 *
 * URL parsing is outside the model: what `new URL(url)` returns is an input,
 * `None` standing for the case where it throws.
 */
module Favicon {
  import opened Wrappers

  /** The parts of a parsed URL the component reads. */
  datatype ParsedUrl = ParsedUrl(protocol: string, hostname: string, port: string, pathname: string, search: string)

  /** `getBaseUrl`: protocol and host name of a parseable URL; the input itself otherwise. */
  function GetBaseUrl(url: string, parsed: Option<ParsedUrl>): (base: string)
    ensures parsed.None? ==> base == url
    ensures parsed.Some? ==> base == parsed.value.protocol + "//" + parsed.value.hostname
  {
    match parsed
    case None => url
    case Some(u) => u.protocol + "//" + u.hostname
  }

  /** Port, path and query never reach the base URL. */
  lemma BaseUrlDropsPortPathQuery(url1: string, url2: string, u1: ParsedUrl, u2: ParsedUrl)
    requires u1.protocol == u2.protocol && u1.hostname == u2.hostname
    ensures GetBaseUrl(url1, Some(u1)) == GetBaseUrl(url2, Some(u2))
  {
  }

  /** Number of candidates; the last one is the third-party favicon service. */
  const SourceCount: nat := 4

  /** `faviconSources`, in priority order. */
  function FaviconSources(base: string, domain: string): (srcs: seq<string>)
    ensures |srcs| == SourceCount
  {
    [ base + "/favicon.svg",
      base + "/favicon.png",
      base + "/favicon.ico",
      "https://www.google.com/s2/favicons?domain=" + domain + "&sz=64" ]
  }

  /**
   * What the component renders from its `url` prop: the candidate list, or
   * None when `new URL(url)` throws while computing the domain, which fails
   * the whole component.
   */
  function Candidates(url: string, parsed: Option<ParsedUrl>): (r: Option<seq<string>>)
    ensures r.Some? <==> parsed.Some?
    ensures r.Some? ==> |r.value| == SourceCount
  {
    match parsed
    case None => None
    case Some(u) => Some(FaviconSources(GetBaseUrl(url, parsed), u.hostname))
  }

  /**
   * Candidates in order: SVG, PNG and ICO at the site's base URL, then the
   * 64-pixel icon from the Google favicon service for the host name. The
   * fallback branch of `getBaseUrl` never shows: whenever the component
   * renders, the URL parsed.
   */
  lemma CandidateOrder(url: string, u: ParsedUrl)
    ensures var base := u.protocol + "//" + u.hostname;
      Candidates(url, Some(u)) == Some([
        base + "/favicon.svg",
        base + "/favicon.png",
        base + "/favicon.ico",
        "https://www.google.com/s2/favicons?domain=" + u.hostname + "&sz=64"])
  {
  }

  /** `Math.min(fallbackLevel, faviconSources.length - 1)`: always a valid index. */
  function SourceIndex(level: nat): (k: nat)
    ensures k < SourceCount
    ensures k <= level
    ensures level < SourceCount ==> k == level
  {
    if level < SourceCount - 1 then level else SourceCount - 1
  }

  /** The effect of one load error on the level the handler saw when it was rendered. */
  function NextLevel(level: nat): nat {
    if level < SourceCount - 1 then level + 1 else level
  }

  /** An error below the last candidate advances by exactly one; at the last one it changes nothing. */
  lemma NextLevelSaturates(level: nat)
    ensures level < SourceCount - 1 ==> NextLevel(level) == level + 1
    ensures level >= SourceCount - 1 ==> NextLevel(level) == level
    ensures NextLevel(level) >= level
    ensures level <= SourceCount - 1 ==> NextLevel(level) <= SourceCount - 1
  {
  }

  /** The level after `k` load errors, each seen by a fresh render. */
  function LevelAfterErrors(k: nat): nat {
    if k == 0 then 0 else NextLevel(LevelAfterErrors(k - 1))
  }

  /** After `k` errors the level is min(k, 3). */
  lemma {:induction false} LevelAfterErrorsIsMin(k: nat)
    ensures LevelAfterErrors(k) == if k < SourceCount - 1 then k else SourceCount - 1
  {
    if k > 0 {
      LevelAfterErrorsIsMin(k - 1);
    }
  }

  /** The level never decreases from one error to the next. */
  lemma {:induction false} LevelAfterErrorsMonotone(j: nat, k: nat)
    requires j <= k
    ensures LevelAfterErrors(j) <= LevelAfterErrors(k)
  {
    LevelAfterErrorsIsMin(j);
    LevelAfterErrorsIsMin(k);
  }

  /**
   * The image element. `fallbackLevel` is the React state; `renderedLevel`
   * is the value the current `handleError` closure captured at the last
   * render. The handler guards on the captured value but increments the
   * state, so several errors before a re-render can push the state past the
   * last index; `currentSrc` clamps it.
   */
  class FaviconImage {
    const sources: seq<string>
    var fallbackLevel: nat
    var renderedLevel: nat

    ghost predicate Valid()
      reads this
    {
      |sources| == SourceCount && renderedLevel <= fallbackLevel
    }

    /**
     * The component mounted for `url`, which `new URL` parsed as `u`; the
     * candidates are those of the URL, and `useState(0)` makes the first
     * render show the SVG one.
     */
    constructor (url: string, u: ParsedUrl)
      ensures Valid()
      ensures Candidates(url, Some(u)) == Some(sources)
      ensures fallbackLevel == 0 && renderedLevel == 0
      ensures CurrentSrc() == GetBaseUrl(url, Some(u)) + "/favicon.svg"
    {
      this.sources := FaviconSources(GetBaseUrl(url, Some(u)), u.hostname);
      fallbackLevel := 0;
      renderedLevel := 0;
    }

    /** `currentSrc` of the last render. */
    function CurrentSrc(): string
      reads this
      requires Valid()
    {
      sources[SourceIndex(renderedLevel)]
    }

    /** `handleError`: advance the state when the captured level is below the last candidate. */
    method HandleError()
      requires Valid()
      modifies this
      ensures Valid()
      ensures renderedLevel == old(renderedLevel)
      ensures fallbackLevel == old(fallbackLevel) + (if old(renderedLevel) < SourceCount - 1 then 1 else 0)
    {
      if renderedLevel < SourceCount - 1 {
        fallbackLevel := fallbackLevel + 1;
      }
    }

    /** A re-render: the handler and `currentSrc` now see the current state. */
    method Render()
      requires Valid()
      modifies this
      ensures Valid()
      ensures fallbackLevel == old(fallbackLevel) && renderedLevel == fallbackLevel
      ensures CurrentSrc() == sources[SourceIndex(fallbackLevel)]
    {
      renderedLevel := fallbackLevel;
    }
  }

  /**
   * `k` load errors, each followed by the re-render it triggers: the image
   * ends on candidate min(k, 3) and the state equals that index.
   */
  method ErrorsWithRenders(url: string, u: ParsedUrl, k: nat) returns (level: nat, shown: string)
    ensures level == LevelAfterErrors(k)
    ensures level == if k < SourceCount - 1 then k else SourceCount - 1
    ensures shown == FaviconSources(GetBaseUrl(url, Some(u)), u.hostname)[level]
  {
    var img := new FaviconImage(url, u);
    var i := 0;
    while i < k
      invariant 0 <= i <= k
      invariant img.Valid() && img.sources == FaviconSources(GetBaseUrl(url, Some(u)), u.hostname)
      invariant img.fallbackLevel == img.renderedLevel == LevelAfterErrors(i)
      invariant img.fallbackLevel <= SourceCount - 1
    {
      img.HandleError();
      img.Render();
      i := i + 1;
    }
    LevelAfterErrorsIsMin(k);
    level := img.fallbackLevel;
    shown := img.CurrentSrc();
  }

  /**
   * Two errors against one render at level 2 both pass the guard: the state
   * overshoots to 4, yet the image shows the last candidate.
   */
  method StaleDoubleError(url: string, u: ParsedUrl) returns (level: nat, shown: string)
    ensures level == 4
    ensures shown == "https://www.google.com/s2/favicons?domain=" + u.hostname + "&sz=64"
  {
    var img := new FaviconImage(url, u);
    img.HandleError();
    img.Render();
    img.HandleError();
    img.Render();
    img.HandleError();
    img.HandleError();
    img.Render();
    level := img.fallbackLevel;
    shown := img.CurrentSrc();
  }
}
