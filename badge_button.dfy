/**
 * Badge Button (`registry/new-york/ui/badge-button.tsx`): the inline style
 * computed from the optional `color` prop. Colour parsing, luminance and the
 * contrast colour come from a colour library that is not part of this
 * model; what they return is an input.
 */
module BadgeButton {
  import opened Wrappers
  import opened TextUtil

  /** An inline style: CSS property name to value. */
  type Style = map<string, string>

  /** What the colour library made of `color`. */
  datatype ColorAnalysis =
    | Threw                                   // one of the library calls threw
    | NotAColor                               // `parseColor` returned null
    | Analysed(r: nat, g: nat, b: nat, luminance: real, contrastColor: string)

  const Border: string := "1px solid rgba(255, 255, 255, 0)"
  /** The whitespace between the two shadows that survives `.trim()`. */
  const ShadowBreak: string := ",\n\t\t\t\t\t\t"
  const StrongShine: string := "rgba(255, 255, 255, 0.28)"
  const SoftShine: string := "rgba(255, 255, 255, 0.14)"

  /** The theme-friendly style used when no colour is given. */
  const NeutralStyle: Style := map[
    "backgroundColor" := "var(--badge-button-bg, rgba(255, 255, 255, 0.08))",
    "color" := "var(--badge-button-text, rgba(255, 255, 255, 0.9))",
    "border" := Border,
    "boxShadow" := BoxShadow(SoftShine, "rgba(0, 0, 0, 0.44)")]

  function BoxShadow(shine: string, shadow: string): string {
    "0px 1px 0.6px 0px " + shine + " inset" + ShadowBreak + "0px 0.6px 3.5px " + shadow
  }

  /** Lighter colours get the stronger inner shine. */
  function ShineColor(luminance: real): string {
    if luminance > 0.5 then StrongShine else SoftShine
  }

  /** `Math.max(0, c - 30)`: one channel of the darkened drop shadow. */
  function ShadowChannel(c: nat): nat {
    if c >= 30 then c - 30 else 0
  }

  /**
   * The shadow darkens every channel by 30 without going negative: it lies
   * in [0, c], it is c - 30 exactly when c >= 30, and darkening keeps the
   * order of channels.
   */
  lemma ShadowChannelRules(c: nat, d: nat)
    ensures ShadowChannel(c) <= c
    ensures ShadowChannel(c) == c - 30 <==> c >= 30
    ensures ShadowChannel(c) == 0 <==> c <= 30
    ensures c <= d ==> ShadowChannel(c) <= ShadowChannel(d)
  {
  }

  function ShadowColor(r: nat, g: nat, b: nat): string {
    "rgba(" + NatToDecimal(ShadowChannel(r)) + ", " + NatToDecimal(ShadowChannel(g)) + ", "
      + NatToDecimal(ShadowChannel(b)) + ", 0.44)"
  }

  /** The `useMemo` that computes `dynamicStyles`. */
  function DynamicStyles(color: Option<string>, analysis: ColorAnalysis): Style {
    if !Truthy(color) then NeutralStyle
    else match analysis
      case Threw => map[]
      case NotAColor => map[]
      case Analysed(r, g, b, lum, text) =>
        map[
          "backgroundColor" := color.value,
          "color" := text,
          "border" := Border,
          "boxShadow" := BoxShadow(ShineColor(lum), ShadowColor(r, g, b))]
  }

  /**
   * Without a colour (absent or empty) the neutral style applies whatever the
   * library would say; an unparseable colour or a library error gives no
   * dynamic style at all; a parsed colour is used verbatim as background, the
   * text takes the contrast colour, and the shine is the strong one exactly
   * when luminance exceeds one half.
   */
  lemma DynamicStylesRules(color: Option<string>, analysis: ColorAnalysis)
    ensures !Truthy(color) ==> DynamicStyles(color, analysis) == NeutralStyle
    ensures Truthy(color) && !analysis.Analysed? ==> DynamicStyles(color, analysis) == map[]
    ensures Truthy(color) && analysis.Analysed? ==>
      var s := DynamicStyles(color, analysis);
      && s.Keys == NeutralStyle.Keys
      && s["backgroundColor"] == color.value
      && s["color"] == analysis.contrastColor
      && s["border"] == NeutralStyle["border"]
      && (s["boxShadow"] == BoxShadow(StrongShine, ShadowColor(analysis.r, analysis.g, analysis.b))
          <==> analysis.luminance > 0.5)
  {
    if Truthy(color) && analysis.Analysed? {
      var s := DynamicStyles(color, analysis);
      if analysis.luminance <= 0.5 {
        assert s["boxShadow"][18..43] == SoftShine;
        assert BoxShadow(StrongShine, ShadowColor(analysis.r, analysis.g, analysis.b))[18..43] == StrongShine;
      }
    }
  }

  /** `{...style, ...dynamicStyles}`. */
  function MergeStyle(style: Style, dynamic: Style): Style {
    style + dynamic
  }

  /**
   * Dynamic keys win over the caller's, the caller's other keys survive, and
   * nothing else appears; with no dynamic style the caller's style is kept
   * as given.
   */
  lemma MergeStyleRules(style: Style, dynamic: Style)
    ensures MergeStyle(style, dynamic).Keys == style.Keys + dynamic.Keys
    ensures forall k :: k in dynamic ==> MergeStyle(style, dynamic)[k] == dynamic[k]
    ensures forall k :: k in style && k !in dynamic ==> MergeStyle(style, dynamic)[k] == style[k]
    ensures MergeStyle(style, map[]) == style
  {
  }

  /** The button's final style for a colour the library cannot handle is exactly the caller's style. */
  lemma UnusableColorKeepsCallerStyle(style: Style, color: string, analysis: ColorAnalysis)
    requires color != "" && !analysis.Analysed?
    ensures MergeStyle(style, DynamicStyles(Some(color), analysis)) == style
  {
    MergeStyleRules(style, map[]);
  }
}
