# Skie component library: a Dafny model of its decision rules

The Skie site (repository `ezDecode/pro-ui`) documents and showcases a React
component library. Most of the code is rendering. Spread through it is a set
of small deterministic rules, and those rules are what this project models and
proves properties of:

- **Scroll Reveal Text**:
  - the `#RRGGBB` colour parser;
  - the case-insensitive highlight match;
  - each word's window on the [0, 1] scroll timeline, and the piecewise-linear keyframes placed in it;
  - the total scroll height.
- **Smart Favicon**: the candidate list and the load-error fallback counter.
- **Adaptive Tooltip**: the intent state machine (active item, confidence, keyboard pin, two timers).
- **Component discovery** (`lib/components.ts`): kebab-case to Title Case, and per-entry metadata defaulting. The result is sorted by title.
- **Open Graph image route**: title and subtitle by type, parameter defaulting, icon URL.
- **Filter Chips**: `cn`, `getHref`, chip normalisation, active chip, anchor or button, click handling.
- **Magnetic Button**: pointer-to-percent clamping, exit overshoot, touch guards, colour classes and the ARIA label.
- **Badge Button**: the dynamic style (neutral default, shadow darkening, shine threshold, merge over the caller's style).
- **Browse grid**: the two-column split and the row expand toggle.
- **Footer**: grid column count and classes, last-section span, external links, clock placeholder.
- **Source listing** (`source-code.tsx`): resolved path, title and language.
- **Component preview**: code source, preview path and download file name.
- **Docs sidebar**: heading and list visibility, external and active items, icon lookup.

There is one Dafny module per source file:

| module | file |
|---|---|
| `ScrollReveal` | `scroll_reveal_text.dfy` |
| `Favicon` | `favicon.dfy` |
| `AdaptiveTooltip` | `adaptive_tooltip.dfy` |
| `ComponentsLib` | `components.dfy` |
| `OgRoute` | `og_route.dfy` |
| `FilterChips` | `filter_chips.dfy` |
| `MagneticButton` | `magnetic_button.dfy` |
| `BadgeButton` | `badge_button.dfy` |
| `BrowseGrid` | `browse_grid.dfy` |
| `Footer` | `footer.dfy` |
| `SourceCode` | `source_code.dfy` |
| `ComponentPreview` | `component_preview.dfy` |
| `DocsSidebar` | `docs_sidebar.dfy` |

Two modules are shared:

- `Wrappers` holds `Option` and the JavaScript `||` and `??` defaults.
- `TextUtil` holds the string built-ins the rules use:
  - ASCII `toUpperCase`/`toLowerCase`;
  - `startsWith` and `includes`;
  - `split`/`join` on one character;
  - decimal printing and hexadecimal digits.

Where the source changes state in place, the model does too:

- the tooltip's handlers, as `AdaptiveTooltip.Tooltip`;
- the favicon's fallback level, as `Favicon.FaviconImage`;
- the flair's animation targets, as `MagneticButton.Flair`;
- a browse row's expansion, as `BrowseGrid.ComponentItem`;
- the discovery loop, as the method `ComponentsLib.GetComponents`.

Each of these methods is specified by a pure function. The lemmas about those
functions carry the properties: invariants kept by every event, saturation,
the round trip of split and join, permutation and order of the sort.

What the code does outside the model enters as a parameter:

- whether `new URL` parsed;
- the directory listing and front matter;
- what the colour library returned;
- whether the fonts loaded;
- the router's path name;
- whether the viewport is mobile.

Timers are events.

Where the documentation and the code disagree, the model follows the code.
The favicon's doc comment (`components/core/favicon.tsx:28-31`) lists three
candidates, but the list has four: the `.ico` file comes before the Google
service.

## Model

| member | source | states |
|---|---|---|
| ScrollReveal.ParseHexColor | registry/new-york/ui/scroll-reveal-text.tsx:103 | Yields a triple exactly when the input is six hexadecimal digits of either case, optionally after one `#`. Every channel is below 256. |
| ScrollReveal.HexToRgb | registry/new-york/ui/scroll-reveal-text.tsx:102-105 | Any input the pattern rejects gives `"255, 107, 0"`. A match gives the decimal channel text. |
| ScrollReveal.HexToRgbOfHexColor | registry/new-york/ui/scroll-reveal-text.tsx:102-105 | Every byte triple spelt as six hex digits is accepted and parses back to the same triple. This holds with or without `#`, in either case. |
| ScrollReveal.RgbTextReadsBack | registry/new-york/ui/scroll-reveal-text.tsx:105 | The output is three decimal numbers separated by `", "`, and each reads back as its channel value. |
| ScrollReveal.HexToRgbIgnoresCase | registry/new-york/ui/scroll-reveal-text.tsx:103 | The `i` flag: lower-casing the input never changes the parse or the output. |
| ScrollReveal.HexToRgbRejectsOtherLengths | registry/new-york/ui/scroll-reveal-text.tsx:103-104 | Any length other than 6 or 7 falls back. This covers 3-digit shorthand and 8-digit colours. |
| ScrollReveal.SomeIncluded | registry/new-york/ui/scroll-reveal-text.tsx:110 | True iff some entry, lower-cased, is a substring of the lower-cased word. |
| ScrollReveal.IsWordHighlighted | registry/new-york/ui/scroll-reveal-text.tsx:108-111 | False for an empty list. Otherwise true iff some lower-cased entry occurs at some offset of the lower-cased word. |
| ScrollReveal.EmptyEntryHighlightsEveryWord | registry/new-york/ui/scroll-reveal-text.tsx:110 | An empty-string entry highlights every word. |
| ScrollReveal.WordHighlightsItself | registry/new-york/ui/scroll-reveal-text.tsx:110 | An entry equal to the word up to letter case highlights it. |
| ScrollReveal.WindowSize | registry/new-york/ui/scroll-reveal-text.tsx:129 | The slot is positive, and N + L + P slots make exactly 1. |
| ScrollReveal.WindowNonEmpty | registry/new-york/ui/scroll-reveal-text.tsx:130-131 | start(i) < end(i) whenever the lead count exceeds -1. |
| ScrollReveal.WindowsIncrease | registry/new-york/ui/scroll-reveal-text.tsx:130-131 | Both start and end strictly increase with the word index. |
| ScrollReveal.WindowsFitTimeline | registry/new-york/ui/scroll-reveal-text.tsx:128-131 | With the configured padding of 0, every window lies in [0, 1], and the last word's window ends exactly at 1. |
| ScrollReveal.PhaseToScrollAffine | registry/new-york/ui/scroll-reveal-text.tsx:132 | `phaseToScroll` sends 0 to the window start and 1 to its end, and preserves affine combinations. |
| ScrollReveal.PhaseToScrollMonotone | registry/new-york/ui/scroll-reveal-text.tsx:132 | On a non-empty window it is strictly increasing and maps [0, 1] into the window. |
| ScrollReveal.BreakpointsOrdered | registry/new-york/ui/scroll-reveal-text.tsx:132-162 | Phase lists that strictly increase inside [0, 1] give breakpoints that strictly increase inside the window. |
| ScrollReveal.AllBreakpointListsOrdered | registry/new-york/ui/scroll-reveal-text.tsx:134-162 | The box, background and reveal breakpoint lists each strictly increase and stay inside the word's window. |
| ScrollReveal.InterpAtBreakpoint | registry/new-york/ui/scroll-reveal-text.tsx:134-162 | The piecewise-linear map takes each keyframe value at its breakpoint. |
| ScrollReveal.InterpClamps | registry/new-york/ui/scroll-reveal-text.tsx:134-162 | The map holds the first value before the first breakpoint and the last value after the last one. |
| ScrollReveal.InterpWithin | registry/new-york/ui/scroll-reveal-text.tsx:134-162 | The map never leaves the range of its keyframe values. |
| ScrollReveal.InterpMonotoneOn | registry/new-york/ui/scroll-reveal-text.tsx:134-137 | Where the keyframes do not decrease, the map does not decrease. |
| ScrollReveal.InterpAntitoneOn | registry/new-york/ui/scroll-reveal-text.tsx:134-137 | Where the keyframes do not increase, the map does not increase. |
| ScrollReveal.BoxOpacityKeyframes | registry/new-york/ui/scroll-reveal-text.tsx:134-137 | Box opacity is 0, 0.3, 1 and 0 at the four phase breakpoints. It is 0 before the first and after the last, and always in [0, 1]. |
| ScrollReveal.BoxOpacityRisesThenFalls | registry/new-york/ui/scroll-reveal-text.tsx:134-137 | Box opacity does not decrease up to the end of focus and does not increase after it. |
| ScrollReveal.Words | registry/new-york/ui/scroll-reveal-text.tsx:215 | The phrase has one more word than it has spaces. |
| ScrollReveal.TotalScrollDistanceSlots | registry/new-york/ui/scroll-reveal-text.tsx:234 | The total is (N + L + P) times the scroll distance. One window slot of the timeline is exactly one scroll distance of pixels. |
| ScrollReveal.DefaultsByViewport | registry/new-york/ui/scroll-reveal-text.tsx:225-226 | Without overrides the lead count is 8 on mobile and 12 on desktop, and the distance is 40 or 60. The total is (spaces + 1 + lead) times the distance. |
| ScrollReveal.WordWindow | registry/new-york/ui/scroll-reveal-text.tsx:130-131 | A word's `[start, end]` slice of the timeline. Specified by `WindowNonEmpty`, `WindowsIncrease` and `WindowsFitTimeline`. |
| ScrollReveal.PhaseToScroll | registry/new-york/ui/scroll-reveal-text.tsx:132 | `phaseToScroll`. Specified by `PhaseToScrollAffine` and `PhaseToScrollMonotone`. |
| ScrollReveal.Interp | registry/new-york/ui/scroll-reveal-text.tsx:134-162 | The clamped piecewise-linear map of `useTransform`. Specified by `InterpAtBreakpoint`, `InterpClamps`, `InterpWithin`, `InterpMonotoneOn` and `InterpAntitoneOn`. |
| ScrollReveal.BoxOpacity | registry/new-york/ui/scroll-reveal-text.tsx:134-137 | The box opacity over scroll progress. Specified by `BoxOpacityKeyframes` and `BoxOpacityRisesThenFalls`. |
| ScrollReveal.ScrollHeight | registry/new-york/ui/scroll-reveal-text.tsx:234 | The container's scroll height. Specified by `TotalScrollDistanceSlots` and `DefaultsByViewport`. |
| ScrollReveal.RgbText | registry/new-york/ui/scroll-reveal-text.tsx:105 | The `${r}, ${g}, ${b}` text. Specified by `RgbTextReadsBack`. |
| ScrollReveal.LeadCount | registry/new-york/ui/scroll-reveal-text.tsx:225 | `config.leadCount ?? (isMobile ? 8 : 12)`. Specified by `DefaultsByViewport`. |
| ScrollReveal.ScrollDistance | registry/new-york/ui/scroll-reveal-text.tsx:226 | `config.scrollDistance ?? (isMobile ? 40 : 60)`. Specified by `DefaultsByViewport`. |
| ScrollReveal.TotalScrollDistance | registry/new-york/ui/scroll-reveal-text.tsx:234 | `totalScrollDistance` for a phrase. Specified by `DefaultsByViewport` and `TotalScrollDistanceSlots`. |
| Favicon.BaseUrlDropsPortPathQuery | components/core/favicon.tsx:16-23 | URLs with the same protocol and host name have the same base. Port, path and query never reach it. |
| Favicon.GetBaseUrl | components/core/favicon.tsx:16-23 | An unparseable URL comes back unchanged. A parsed one becomes protocol + `//` + host name. |
| Favicon.Candidates | components/core/favicon.tsx:40-49 | The component has candidates exactly when the URL parses, because line 41 throws otherwise. There are always four. |
| Favicon.CandidateOrder | components/core/favicon.tsx:44-49 | The candidates, in order, are SVG, PNG and ICO at the base URL, then the Google service URL for the host name at size 64. |
| Favicon.SourceIndex | components/core/favicon.tsx:51 | The shown index is always below 4 and at most the level. It equals the level below 4. |
| Favicon.NextLevelSaturates | components/core/favicon.tsx:53-57 | An error below the last candidate adds exactly one, and at the last it changes nothing. The level never decreases. |
| Favicon.LevelAfterErrorsIsMin | components/core/favicon.tsx:39-57 | From the initial 0, after k errors the level is min(k, 3). |
| Favicon.LevelAfterErrorsMonotone | components/core/favicon.tsx:53-57 | More errors never give a lower level. |
| Favicon.FaviconImage.constructor | components/core/favicon.tsx:39-49 | Built for a URL that `new URL` parsed. Its sources are exactly that URL's candidates, and it starts at level 0 showing the SVG under the base URL. |
| Favicon.FaviconImage.HandleError | components/core/favicon.tsx:53-57 | The guard reads the level captured at the last render, while the increment applies to the state. |
| Favicon.FaviconImage.Render | components/core/favicon.tsx:51 | A re-render shows `sources[min(level, 3)]`. |
| Favicon.ErrorsWithRenders | components/core/favicon.tsx:51-57 | k errors, each followed by its re-render, end on the URL's candidate min(k, 3). |
| Favicon.StaleDoubleError | components/core/favicon.tsx:51-57 | Two errors before a re-render push the state to 4. The clamp still shows the last candidate, the Google service URL for the host name. |
| Favicon.FaviconSources | components/core/favicon.tsx:44-49 | Always four candidates. Their order is stated by `CandidateOrder`. |
| Favicon.NextLevel | components/core/favicon.tsx:53-57 | The functional state update on an error. Specified by `NextLevelSaturates`, `LevelAfterErrorsIsMin` and `LevelAfterErrorsMonotone`. |
| Favicon.FaviconImage.CurrentSrc | components/core/favicon.tsx:51 | `currentSrc` of the last render. Specified by `FaviconImage.Render`, `ErrorsWithRenders` and `StaleDoubleError`. |
| AdaptiveTooltip.IntentDelayRange | registry/new-york/ui/adaptive-tooltip.tsx:57-66 | For confidence in [0, 1] the delay lies in [30, 100] and falls as confidence rises. |
| AdaptiveTooltip.InitialInv | registry/new-york/ui/adaptive-tooltip.tsx:44-46 | The initial state satisfies the invariant. |
| AdaptiveTooltip.NextPreservesInv | registry/new-york/ui/adaptive-tooltip.tsx:59-98 | Every event keeps four things: confidence in [0, 1]; the active and pending indices inside `items`; the scheduled delay in [30, 100]; and `pinned` false when pinning is disabled. |
| AdaptiveTooltip.RunPreservesInv | registry/new-york/ui/adaptive-tooltip.tsx:59-98 | Any sequence of valid events keeps the invariant. |
| AdaptiveTooltip.ReachableInv | registry/new-york/ui/adaptive-tooltip.tsx:44-98 | Every state reachable from the initial one satisfies the invariant. |
| AdaptiveTooltip.ConfidenceAfterEnters | registry/new-york/ui/adaptive-tooltip.tsx:61 | k enters without a decay in between raise confidence c to min(c + 0.3k, 1). |
| AdaptiveTooltip.DelayUsesPriorConfidence | registry/new-york/ui/adaptive-tooltip.tsx:57-72 | The delay comes from the confidence before the increment: the first hover waits 100 ms and the second 79 ms. |
| AdaptiveTooltip.LatestEnterWins | registry/new-york/ui/adaptive-tooltip.tsx:63-66 | After an enter on item i, with no later enter, only i can become active. |
| AdaptiveTooltip.LeaveCancelsIntent | registry/new-york/ui/adaptive-tooltip.tsx:74-77 | Leave cancels the pending intent, so a later fire opens nothing. It clears the active item unless pinned, and keeps it when pinned. |
| AdaptiveTooltip.DecayResetsConfidence | registry/new-york/ui/adaptive-tooltip.tsx:68-69 | The decay resets confidence to 0 and changes nothing else. Every enter re-arms it. |
| AdaptiveTooltip.KeyboardPinning | registry/new-york/ui/adaptive-tooltip.tsx:83-98 | Meta or shift pins and any key release unpins. With pinning disabled, keys change nothing. |
| AdaptiveTooltip.TooltipLabel | registry/new-york/ui/adaptive-tooltip.tsx:143-171 | The tooltip shows iff an item is active, and its label is that item's label. |
| AdaptiveTooltip.ReachableLabelDefined | registry/new-york/ui/adaptive-tooltip.tsx:131-171 | In every reachable state the active index is a valid index of `items`. |
| AdaptiveTooltip.Tooltip.constructor | registry/new-york/ui/adaptive-tooltip.tsx:44-46 | No active item, confidence 0, not pinned, no timers. |
| AdaptiveTooltip.Tooltip.HandleEnter | registry/new-york/ui/adaptive-tooltip.tsx:59-72 | The fields change as the enter event says, and the invariant is kept. |
| AdaptiveTooltip.Tooltip.HandleLeave | registry/new-york/ui/adaptive-tooltip.tsx:74-77 | The fields change as the leave event says, and the invariant is kept. |
| AdaptiveTooltip.Tooltip.IntentTimerFires | registry/new-york/ui/adaptive-tooltip.tsx:64-66 | The pending item becomes active, and the invariant is kept. |
| AdaptiveTooltip.Tooltip.DecayTimerFires | registry/new-york/ui/adaptive-tooltip.tsx:69 | Confidence resets, and the invariant is kept. |
| AdaptiveTooltip.Tooltip.OnKeyDown | registry/new-york/ui/adaptive-tooltip.tsx:86-87 | Pins on meta or shift when pinning is enabled, and the invariant is kept. |
| AdaptiveTooltip.Tooltip.OnKeyUp | registry/new-york/ui/adaptive-tooltip.tsx:89 | Unpins when pinning is enabled, and the invariant is kept. |
| AdaptiveTooltip.IntentDelay | registry/new-york/ui/adaptive-tooltip.tsx:57 | `intentDelay`, with a negative delay counted as 0 as `setTimeout` does. Specified by `IntentDelayRange` and `DelayUsesPriorConfidence`. |
| AdaptiveTooltip.Next | registry/new-york/ui/adaptive-tooltip.tsx:59-98 | The state after one event. Specified by `NextPreservesInv`, `LatestEnterWins`, `LeaveCancelsIntent`, `DecayResetsConfidence`, `KeyboardPinning` and `ConfidenceAfterEnters`. |
| AdaptiveTooltip.Bump | registry/new-york/ui/adaptive-tooltip.tsx:61 | `Math.min(c + 0.3, 1)`. Specified by `ConfidenceAfterEnters` and `NextPreservesInv`. |
| ComponentsLib.CapitalizeAll | lib/components.ts:73 | Each piece is capitalised, in place and in order. |
| ComponentsLib.FormatTitleIsTitleCase | lib/components.ts:70-75 | Split, capitalise and join equals the character-wise rule: hyphens become spaces; the first character and each one after a hyphen are upper-cased; the rest are kept. |
| ComponentsLib.FormatTitleUnfold | lib/components.ts:70-75 | The title is the capitalised piece before the first hyphen, a space, then the title of the rest. |
| ComponentsLib.FormatTitleShape | lib/components.ts:72-74 | The title keeps the name's length and turns each hyphen into a space. A name without hyphens only has its first character capitalised. |
| ComponentsLib.FormatTitleWords | lib/components.ts:72-74 | For a name without spaces, splitting the title on spaces gives exactly the capitalised hyphen-separated pieces. |
| ComponentsLib.InfoMetadata | lib/components.ts:40-59 | The href is `/docs/components/` + name. The title is a truthy front-matter title, otherwise the formatted name, also when the page is missing or unparseable. The description is the front-matter one or empty. |
| ComponentsLib.DiscoveredMembers | lib/components.ts:29-37 | A component is collected iff some entry is a directory holding `default.tsx`. |
| ComponentsLib.Insert | lib/components.ts:64 | Inserting into a title-sorted list adds exactly the one element and keeps the order. |
| ComponentsLib.SortByTitle | lib/components.ts:64 | The result is a permutation of the input, sorted by title. |
| ComponentsLib.SortKeepsSorted | lib/components.ts:64 | A list already in title order is left unchanged, as a stable sort does. |
| ComponentsLib.GetComponents | lib/components.ts:19-65 | Without the previews directory the result is empty. Otherwise it is the collected components, as a permutation sorted by title. |
| ComponentsLib.FormatTitle | lib/components.ts:70-75 | `formatTitle`. Specified by `FormatTitleIsTitleCase`, `FormatTitleUnfold`, `FormatTitleShape` and `FormatTitleWords`. |
| ComponentsLib.Info | lib/components.ts:40-59 | The metadata of one component. Specified by `InfoMetadata`. |
| ComponentsLib.Discovered | lib/components.ts:29-37 | The components collected from the directory listing. Specified by `DiscoveredMembers`. |
| ComponentsLib.Capitalize | lib/components.ts:73 | Keeps the length. Its effect, the first character upper-cased and the rest kept, is stated by `FormatTitleIsTitleCase` and `FormatTitleShape`. |
| ComponentsLib.IsComponent | lib/components.ts:29-37 | A directory entry holding `default.tsx`. Specified by `DiscoveredMembers`. |
| OgRoute.DisplayTitleByType | app/api/og/route.tsx:102-118 | Docs gives the title verbatim. A component gives the Title Case of its name, character for character. Any other type gives `"Skie — Component Library"` and the default subtitle. |
| OgRoute.SubtitleIdentifiesBranch | app/api/og/route.tsx:120-129 | Two types get the same subtitle iff they take the same branch. |
| OgRoute.ProductionIconIsFixed | app/api/og/route.tsx:57-62 | Outside development the icon is the site URL + `/media/img_logo.png`, whatever the request. |
| OgRoute.Get | app/api/og/route.tsx:48-99 | It answers 500 with the failure text exactly when the fonts fail. Otherwise it returns a 1200 by 630 image with the icon under the base URL. The title and subtitle follow the type: for `docs`, the title parameter or empty; for `component`, the Title Case of the name parameter or empty; for a missing, empty or unknown type, the library title and default subtitle. |
| OgRoute.NoParamsGivesDefaultCard | app/api/og/route.tsx:51-53 | With no parameters the card has the library title and the `ui.creativesky.me` subtitle. |
| OgRoute.EmptyParamsAreMissing | app/api/og/route.tsx:51-53 | Empty parameters behave like missing ones. |
| OgRoute.DocsWithoutTitle | app/api/og/route.tsx:51-53 | A docs card without a title shows an empty title under the docs subtitle. |
| OgRoute.Present | app/api/og/route.tsx:51-53 | An empty parameter is read as a missing one; a non-empty one is kept. |
| OgRoute.EachParamDefaultsAlone | app/api/og/route.tsx:51-53 | Each parameter defaults on its own: emptying any one of them, whatever the others hold, gives the same response as leaving it out. |
| OgRoute.GetDisplayTitle | app/api/og/route.tsx:102-118 | `getDisplayTitle`. Specified by `DisplayTitleByType`. |
| OgRoute.GetSubtitle | app/api/og/route.tsx:120-129 | `getSubtitle`. Specified by `DisplayTitleByType` and `SubtitleIdentifiesBranch`. |
| OgRoute.BaseUrl | app/api/og/route.tsx:57-61 | The request's origin in development, the site URL otherwise. Specified by `ProductionIconIsFixed` and `Get`. |
| OgRoute.IconUrl | app/api/og/route.tsx:62 | The logo under the base URL. Specified by `ProductionIconIsFixed` and `Get`. |
| FilterChips.Kept | registry/new-york/ui/filter-chips.tsx:49 | The kept entries are exactly the truthy ones, none of them empty. |
| FilterChips.CnFlattens | registry/new-york/ui/filter-chips.tsx:116-123 | A nested `cn` call as one argument equals passing its entries directly, also when they are all falsy. |
| FilterChips.CnSplits | registry/new-york/ui/filter-chips.tsx:49 | Splitting the class string on spaces gives back the kept entries, when those have no spaces. |
| FilterChips.Normalize | registry/new-york/ui/filter-chips.tsx:112 | A bare value is its own label. An object keeps its fields, with the value as label only when the label is missing. |
| FilterChips.HrefReadsBack | registry/new-york/ui/filter-chips.tsx:98-101 | With no base the link is `#`, and for the all-value it is the base. Otherwise, when the base has no `?` and the parameter name no `=`, it parses back into the base, the parameter name and the unencoded value. |
| FilterChips.HrefInjective | registry/new-york/ui/filter-chips.tsx:99 | Distinct values other than the all-value get distinct hrefs. |
| FilterChips.RenderChipRules | registry/new-york/ui/filter-chips.tsx:103-153 | Pressed iff the value is active. An anchor iff `asLinks` and a base are given. A disabled chip ignores clicks. An enabled one notifies the handler with its value and prevents the default exactly when it is a button. |
| FilterChips.AtMostOneActive | registry/new-york/ui/filter-chips.tsx:113-125 | With distinct values at most one chip is pressed. |
| FilterChips.Cn | registry/new-york/ui/filter-chips.tsx:49 | `cn`. Specified by `Kept`, `CnFlattens` and `CnSplits`. |
| FilterChips.GetHref | registry/new-york/ui/filter-chips.tsx:98-101 | `getHref`. Specified by `HrefReadsBack` and `HrefInjective`. |
| FilterChips.Click | registry/new-york/ui/filter-chips.tsx:103-109 | `handleClick`. Specified by `RenderChipRules`. |
| FilterChips.RenderChip | registry/new-york/ui/filter-chips.tsx:111-153 | `renderChip`. Specified by `Normalize`, `RenderChipRules` and `AtMostOneActive`. |
| FilterChips.QueryParam | registry/new-york/ui/filter-chips.tsx:76 | The `queryParam = "type"` default. Specified by `QueryParamDefault`. |
| FilterChips.QueryParamDefault | registry/new-york/ui/filter-chips.tsx:76 | A missing parameter name is "type". A given one, even empty, is kept. |
| FilterChips.LinksOn | registry/new-york/ui/filter-chips.tsx:149 | `asLinks && baseHref`. Specified by `RenderChipRules`. |
| MagneticButton.GetXY | registry/new-york/ui/magnetic-button.tsx:35-49 | Both coordinates lie in [0, 100]. |
| MagneticButton.PercentProportional | registry/new-york/ui/magnetic-button.tsx:37-47 | Inside the box the percentage is exactly offset·100/size. It is 0 at or before the start edge and 100 at or past the end edge. |
| MagneticButton.PercentMonotone | registry/new-york/ui/magnetic-button.tsx:37-47 | Moving the pointer right or down never moves the flair back. |
| MagneticButton.ExitOffsetRules | registry/new-york/ui/magnetic-button.tsx:70-71 | The overshoot happens exactly in the outer 10% bands and always pushes outward. The exit stays in [-20, 120]. |
| MagneticButton.TouchEndLeavesFromCentre | registry/new-york/ui/magnetic-button.tsx:59-67 | A leave without coordinates exits from (50, 50) with no overshoot. |
| MagneticButton.Flair.constructor | registry/new-york/ui/magnetic-button.tsx:142 | The flair starts at scale 0. |
| MagneticButton.Flair.MouseEnter | registry/new-york/ui/magnetic-button.tsx:51-57 | Jumps to the pointer's percentages, at scale 1. |
| MagneticButton.Flair.MouseMove | registry/new-york/ui/magnetic-button.tsx:78-87 | Follows the pointer, scale unchanged. |
| MagneticButton.Flair.MouseLeave | registry/new-york/ui/magnetic-button.tsx:59-76 | Heads for the exit target, scale 0. |
| MagneticButton.Flair.TouchStart | registry/new-york/ui/magnetic-button.tsx:90-94 | An empty touch list changes nothing. Otherwise the first touch acts as an enter. |
| MagneticButton.Flair.TouchMove | registry/new-york/ui/magnetic-button.tsx:96-100 | An empty touch list changes nothing. Otherwise the first touch acts as a move. |
| MagneticButton.Flair.TouchEnd | registry/new-york/ui/magnetic-button.tsx:102-104 | Exits from the centre, scale 0. |
| MagneticButton.TouchGesture | registry/new-york/ui/magnetic-button.tsx:90-104 | Start, move and end: the flair stays in the box while touching, then leaves from (50, 50) and vanishes. |
| MagneticButton.FlairBackground | registry/new-york/ui/magnetic-button.tsx:147 | An inline background is set iff a custom colour is given. |
| MagneticButton.HoverColoursContrast | registry/new-york/ui/magnetic-button.tsx:123-129 | White text iff a black flair. The flair is black iff there is no custom colour and the variant is not `light`, which includes `custom` without a colour. The flair class is empty iff the colour is inline. |
| MagneticButton.AriaLabel | registry/new-york/ui/magnetic-button.tsx:138 | String children, even empty ones, are the label. Otherwise the label is `"Magnetic button"`. |
| MagneticButton.Percent | registry/new-york/ui/magnetic-button.tsx:37-47 | One coordinate of `getXY`. Specified by `PercentProportional` and `PercentMonotone`. |
| MagneticButton.ExitOffset | registry/new-york/ui/magnetic-button.tsx:70-71 | The exit overshoot. Specified by `ExitOffsetRules`. |
| MagneticButton.ExitTarget | registry/new-york/ui/magnetic-button.tsx:59-71 | Where the flair leaves. Specified by `TouchEndLeavesFromCentre` and `ExitOffsetRules`. |
| MagneticButton.FlairColor | registry/new-york/ui/magnetic-button.tsx:123-126 | `flairColor`. Specified by `HoverColoursContrast`. |
| MagneticButton.TextHoverColor | registry/new-york/ui/magnetic-button.tsx:127-129 | `textHoverColor`. Specified by `HoverColoursContrast`. |
| MagneticButton.Clamp | registry/new-york/ui/magnetic-button.tsx:37-44 | `gsap.utils.clamp(0, 100)`. Specified by `PercentProportional` and `GetXY`. |
| BadgeButton.ShadowChannelRules | registry/new-york/ui/badge-button.tsx:68 | The shadow channel lies in [0, c], equals c − 30 iff c ≥ 30, and keeps the order of channels. |
| BadgeButton.DynamicStylesRules | registry/new-york/ui/badge-button.tsx:42-83 | Without a colour the result is the neutral style. An unparseable colour or an error gives an empty style. A parsed colour is the background verbatim, the text takes the contrast colour, and the strong shine is used iff luminance > 0.5. |
| BadgeButton.MergeStyleRules | registry/new-york/ui/badge-button.tsx:89-92 | Dynamic keys override the caller's, the caller's other keys survive, and nothing else appears. |
| BadgeButton.UnusableColorKeepsCallerStyle | registry/new-york/ui/badge-button.tsx:57-92 | For a colour the library rejects, the button keeps exactly the caller's style. |
| BadgeButton.ShadowChannel | registry/new-york/ui/badge-button.tsx:68 | `Math.max(0, c - 30)`. Specified by `ShadowChannelRules`. |
| BadgeButton.DynamicStyles | registry/new-york/ui/badge-button.tsx:42-83 | `dynamicStyles`. Specified by `DynamicStylesRules`. |
| BadgeButton.MergeStyle | registry/new-york/ui/badge-button.tsx:89-92 | The style spread. Specified by `MergeStyleRules` and `UnusableColorKeepsCallerStyle`. |
| BadgeButton.ShineColor | registry/new-york/ui/badge-button.tsx:64-66 | The inner shine, strong iff luminance > 0.5. Specified by `DynamicStylesRules`. |
| BadgeButton.ShadowColor | registry/new-york/ui/badge-button.tsx:68 | The darkened drop-shadow colour. Specified by `ShadowChannelRules` and `DynamicStylesRules`. |
| BadgeButton.BoxShadow | registry/new-york/ui/badge-button.tsx:74-77 | The two-layer `boxShadow` text. Specified by `DynamicStylesRules`. |
| BrowseGrid.MidpointIsCeiling | app/browse/browse-grid.tsx:113 | The midpoint is the least integer at or above n/2. |
| BrowseGrid.GridSplit | app/browse/browse-grid.tsx:104-115 | An empty list renders only the message. Otherwise left then right is the list in order, and the left column is as long as the right or one longer. |
| BrowseGrid.GridPartitions | app/browse/browse-grid.tsx:113-133 | Every component is in one of the two columns, and nothing else is. |
| BrowseGrid.ComponentItem.constructor | app/browse/browse-grid.tsx:31 | A row starts collapsed. |
| BrowseGrid.ComponentItem.ChevronRotation | app/browse/browse-grid.tsx:55 | The chevron is at 180 degrees iff the preview is shown, and at 0 iff it is not. |
| BrowseGrid.ComponentItem.Toggle | app/browse/browse-grid.tsx:38 | A click flips the expansion. |
| BrowseGrid.AfterClicksParity | app/browse/browse-grid.tsx:31-38 | A fresh row is open iff it was clicked an odd number of times. |
| BrowseGrid.DoubleClickRestores | app/browse/browse-grid.tsx:38 | Two clicks undo each other. |
| BrowseGrid.ClickRow | app/browse/browse-grid.tsx:31-92 | After k clicks a fresh row shows its preview and docs link iff k is odd. |
| BrowseGrid.Grid | app/browse/browse-grid.tsx:104-115 | The grid's two columns. Specified by `GridSplit` and `GridPartitions`. |
| BrowseGrid.Midpoint | app/browse/browse-grid.tsx:113 | `Math.ceil(n / 2)`. Specified by `MidpointIsCeiling`. |
| BrowseGrid.ComponentItem.View | app/browse/browse-grid.tsx:68-92 | The preview and docs link, shown only when expanded. Specified by `ComponentItem.ChevronRotation` and `ClickRow`. |
| Footer.GridCols | components/core/footer.tsx:43 | The column count is in {1, 2, 3} and at most the number of sections. |
| Footer.GridRules | components/core/footer.tsx:43-62 | Columns are min(n, 3). Only the last section spans, and only in the three-column grid. |
| Footer.RenderLink | components/core/footer.tsx:73-75 | A link opens a new tab with `noopener noreferrer` iff its href is external. |
| Footer.ExternalExamples | components/core/footer.tsx:38-40 | `https://` links are external. Relative paths, `mailto:` and `httpx://` are not. |
| Footer.RenderSection | components/core/footer.tsx:57-82 | A section renders its title and one link per item, in order. |
| Footer.FooterRules | components/core/footer.tsx:43-93 | No grid without sections. Otherwise the grid has class `grid <columns class> gap-8` and one column per section, in order, each with its title and links. Only the last section spans, and it does exactly when there are more than two. The clock reads `00:00:00 IST` before its first tick. |
| Footer.IsExternalLink | components/core/footer.tsx:38-40 | `isExternalLink`. Specified by `ExternalExamples` and `RenderLink`. |
| Footer.GridColsClass | components/core/footer.tsx:44-49 | The grid's column classes. Specified by `GridRules`. |
| Footer.SectionSpan | components/core/footer.tsx:58-62 | The last section's span class. Specified by `GridRules` and `FooterRules`. |
| Footer.RenderFooter | components/core/footer.tsx:51-93 | The footer. Specified by `FooterRules`. |
| SourceCode.GenerateTitleOf | components/core/source-code.tsx:18-20 | `registry/<segment>/rest` becomes `components/rest`. |
| SourceCode.GenerateTitleChangesOnlyMatches | components/core/source-code.tsx:18-20 | Only a path the pattern matches is changed. |
| SourceCode.GenerateTitleIdempotent | components/core/source-code.tsx:18-20 | The replacement happens once, so a second pass changes nothing. |
| SourceCode.ResolvedPath | components/core/source-code.tsx:36-40 | A path is missing iff neither `filePath` nor `name` is given. `filePath` wins, then the registry path of the name, and a resolved path is never empty. |
| SourceCode.LanguageRules | components/core/source-code.tsx:43 | An explicit language wins. Otherwise the language is the text after the last dot, or the whole dot-free path. `tsx` appears only when that text is empty, e.g. a trailing dot. |
| SourceCode.RenderRules | components/core/source-code.tsx:36-46 | The error shows iff there is neither a path nor a name. An explicit title always wins. |
| SourceCode.ComponentPathTitle | components/core/source-code.tsx:36-44 | A registry component's title is `components/ui/<name>.tsx`. |
| SourceCode.RenderByName | components/core/source-code.tsx:34-46 | A component given by name alone is listed from the registry under its `components/ui` title. |
| SourceCode.GenerateTitle | components/core/source-code.tsx:18-20 | `generateTitle`. Specified by `GenerateTitleOf`, `GenerateTitleChangesOnlyMatches` and `GenerateTitleIdempotent`. |
| SourceCode.Language | components/core/source-code.tsx:43 | The highlighting language. Specified by `LanguageRules`. |
| SourceCode.Render | components/core/source-code.tsx:34-46 | The listing. Specified by `RenderRules` and `RenderByName`. |
| SourceCode.ComponentPath | components/core/source-code.tsx:36 | The registry path of a named component. Specified by `ResolvedPath`, `ComponentPathTitle` and `RenderByName`. |
| ComponentPreview.PreviewRules | components/core/component-preview.tsx:32-56 | Without a name: the code or empty, the given file name or `component.tsx`, and the children. With a name: the preview file's code, and the loaded preview iff present. An explicit file name is never overridden; without one, a named preview's file name is the one derived from the name. |
| ComponentPreview.FilenameFromNameRules | components/core/component-preview.tsx:44-47 | The derived name ends in `.tsx`, and its stem has no `/`. A name without `/` is the stem. If the name has a `/` and does not end with one, the stem is the text after the last `/`: it ends the name and directly follows a `/`. A name ending with `/` gives its first segment. |
| ComponentPreview.FilenameOfPlainName | components/core/component-preview.tsx:45-46 | A name without `/` is its own file name. |
| ComponentPreview.StemIsLastSegment | components/core/component-preview.tsx:45-46 | The stem has no `/`. It is the name's last piece after `/` unless the name ends with `/`, and the whole name when it has no `/`. |
| ComponentPreview.StemAfterTrailingSlash | components/core/component-preview.tsx:46 | A name ending with `/` falls back to its first segment. |
| ComponentPreview.Preview | components/core/component-preview.tsx:25-56 | The preview. Specified by `PreviewRules`. |
| ComponentPreview.FilenameFromName | components/core/component-preview.tsx:44-47 | The download name. Specified by `FilenameFromNameRules` and `FilenameOfPlainName`. |
| ComponentPreview.PreviewPath | components/core/component-preview.tsx:39 | `components/previews/<name>.tsx`. Specified by `PreviewRules`. |
| ComponentPreview.DownloadStem | components/core/component-preview.tsx:45-46 | `parts[parts.length - 1] || parts[0]`. Specified by `StemIsLastSegment`, `StemAfterTrailingSlash` and `FilenameFromNameRules`. |
| DocsSidebar.Lookup | components/core/docs-sidebar-client.tsx:59-60 | An icon is found iff the title is a key, and it is that key's icon. |
| DocsSidebar.ItemRules | components/core/docs-sidebar-client.tsx:61-98 | External iff the href starts with `http`. External items open a new tab with `noopener noreferrer`. An internal item is active iff the path name is its href. |
| DocsSidebar.OneActiveItem | components/core/docs-sidebar-client.tsx:94 | With distinct hrefs at most one item is active. |
| DocsSidebar.IconRules | components/core/docs-sidebar-client.tsx:27-40 | No title has both icons, and titles in neither map get none. Lookup is exact: `introduction` gets no icon. |
| DocsSidebar.SectionRules | components/core/docs-sidebar-client.tsx:49-98 | The heading shows iff the title is non-empty and not `Socials`, and then it is the title. The list shows iff items exist and are non-empty, and then entry k is the view of item k. |
| DocsSidebar.SidebarExternalIsLooser | components/core/docs-sidebar-client.tsx:61 | Every footer-external link is sidebar-external, but `httpx://host` is external only here. |
| DocsSidebar.RenderItem | components/core/docs-sidebar-client.tsx:59-98 | One sidebar item. Specified by `ItemRules` and `OneActiveItem`. |
| DocsSidebar.RenderSection | components/core/docs-sidebar-client.tsx:49-98 | One section. Specified by `SectionRules`. |
| DocsSidebar.ShowHeading | components/core/docs-sidebar-client.tsx:51 | A non-empty title other than `Socials`. Specified by `SectionRules`. |
| DocsSidebar.ShowItems | components/core/docs-sidebar-client.tsx:56 | Items exist and are non-empty. Specified by `SectionRules`. |
| DocsSidebar.IsExternal | components/core/docs-sidebar-client.tsx:61 | `href.startsWith("http")`. Specified by `ItemRules` and `SidebarExternalIsLooser`. |
| TextUtil.Contains | registry/new-york/ui/scroll-reveal-text.tsx:110 | `includes` is true iff the string occurs at some offset. |
| TextUtil.Split | lib/components.ts:72 | `split` gives one more piece than separators, and no piece contains the separator. |
| TextUtil.JoinSplit | lib/components.ts:71-74 | Joining the pieces of a split with the same separator gives the string back. |
| TextUtil.SplitJoin | lib/components.ts:71-74 | Splitting a join of separator-free pieces gives the pieces back. |
| TextUtil.LastPieceOfSplit | components/core/source-code.tsx:43 | `split(c).pop()` is the text after the last `c`. |
| TextUtil.LastPieceIsSuffix | components/core/source-code.tsx:43 | That text ends the string, has no `c`, and directly follows a `c` when there is one. |
| TextUtil.LowerIdempotent | registry/new-york/ui/scroll-reveal-text.tsx:110 | Lower-casing twice is lower-casing once, and leaves no ASCII capitals. |
| TextUtil.NatToDecimal | registry/new-york/ui/scroll-reveal-text.tsx:105 | A printed number is a non-empty run of decimal digits with no leading zero. |
| TextUtil.DecimalRoundTrip | registry/new-york/ui/scroll-reveal-text.tsx:105 | Reading back a printed number gives the number. |
| TextUtil.HexDigitChar | registry/new-york/ui/scroll-reveal-text.tsx:105 | Each value below 16 has a digit in either case that `parseInt(_, 16)` reads as that value. |
| Wrappers.Truthy | components/core/source-code.tsx:36 | The truthiness of an optional string: present and non-empty. Stated through `OrElse`. |
| Wrappers.OrElse | app/api/og/route.tsx:51-53 | `o || d`: a truthy value wins, and the default is taken otherwise. |
| Wrappers.Coalesce | registry/new-york/ui/filter-chips.tsx:76 | `o ?? d`: only a missing value takes the default. |

## Left out

- Rendering: JSX, Tailwind class tables beyond the computed choices above, icons and layout-only components are not modelled.
- Animation libraries are not modelled. framer-motion springs and layout animations, GSAP tweens and anime.js are library code over floating point. `useTransform` is modelled as clamped piecewise-linear interpolation. `mapRange` and `clamp` are modelled as the maps they name. The flair is modelled by its animation targets.
- IEEE-754 rounding: window arithmetic, percentages and confidence are `real`. For example, 0.3 added three times is exactly 0.9 here.
- Real time: the tooltip's two `setTimeout`s are events that may arrive in any order, with delays recorded but not elapsed. The footer's `setInterval` clock and its `Intl` formatting are an input string.
- I/O is reduced to inputs:
  - `fs` and gray-matter in discovery;
  - `fetch`, `loadGoogleFont` and `ImageResponse` in the image route;
  - `getSourceCode` and `getPreviewComponent` in the listing and preview;
  - `new URL` in the favicon and route;
  - the router's path name;
  - the colour library (`parseColor`, `getLuminance`, `getContrastColor`, in `lib/utils/colorUtils`, which is not part of this model).
- `isMobile` and its resize listener: taken as a parameter.
- `toUpperCase` and `toLowerCase` are ASCII only. Unicode case mapping is not modelled.
- `localeCompare` is an arbitrary total preorder. The sort is specified as a stable insertion sort, the order the language prescribes for equal keys.
- MagneticButton.GetXY: requires a box of positive width and height. For a zero-size box the source divides by zero, and that case is not modelled.
- The tooltip's event function assumes a re-render between any two events. The stale-closure race of two events against one render is modelled only for the favicon (`Favicon.FaviconImage`).
- AdaptiveTooltip.Tooltip.HandleEnter: the decay timer's 4000 ms delay and the intent delay are recorded, not enforced. No real time passes between events.
- DocsSidebar.Lookup: the icon tables are exact maps. A plain-object lookup of an inherited key such as `constructor` is not modelled.
- FilterChips.Kept: `undefined`, `null` and `false` arguments are one `None`. Only their falsiness matters to `cn`.
- ScrollReveal.AllBreakpointListsOrdered: the scale, blur, background and text keyframes are covered by the general interpolation lemmas. Only box opacity has its own keyframe lemmas.
- AdaptiveTooltip.Inv: `items` and `enablePinning` are fixed for the component's life. In the source a parent may change them between renders. Turning pinning off while pinned removes the key listeners and leaves `pinned` true. Shrinking `items` can leave `activeIndex` past the end, so the label read at `adaptive-tooltip.tsx:171` is undefined. `NextPreservesInv` and `ReachableLabelDefined` hold only for fixed props.
- The image route's four font weights are one success-or-failure input. Which font failed is not modelled.
