/**
 * Scroll Reveal Text: the colour parsing, highlight matching and scroll
 * timeline arithmetic of the word-by-word reveal component.
 *
 * The scroll timeline is the interval [0, 1]. Each word `i` of `n` words owns
 * a window [start(i), end(i)] on it; inside its window a word moves through
 * three phases (emergence, focus, reveal) given as fractions of the window,
 * and each animated property is a piecewise-linear function of the scroll
 * progress through breakpoints placed at those phases. Arithmetic is on
 * `real`: IEEE-754 rounding is not modelled.
 */
module ScrollReveal {
  import opened Wrappers
  import opened TextUtil

  // ===================================================================
  // hexToRgb
  // ===================================================================

  /** The colour used when the primary colour is not a six-digit hex colour. */
  const FallbackRgb: string := "255, 107, 0"

  datatype Rgb = Rgb(r: nat, g: nat, b: nat)

  predicate IsByteTriple(c: Rgb) {
    c.r < 256 && c.g < 256 && c.b < 256
  }

  /**
   * The strings the pattern `^#?([a-f\d]{2})([a-f\d]{2})([a-f\d]{2})$` with
   * the `i` flag accepts: six hexadecimal digits of either case, optionally
   * preceded by one `#`, and nothing else.
   */
  ghost predicate MatchesHexColor(s: string) {
    || (|s| == 6 && forall k :: 0 <= k < 6 ==> IsHexDigit(s[k]))
    || (|s| == 7 && s[0] == '#' && forall k :: 1 <= k < 7 ==> IsHexDigit(s[k]))
  }

  /** `parseInt` of a two-digit hexadecimal string. */
  function HexByte(hi: char, lo: char): nat
    requires IsHexDigit(hi) && IsHexDigit(lo)
  {
    16 * HexValue(hi) + HexValue(lo)
  }

  /** The three capture groups of the pattern, each read as a byte, or None when it does not match. */
  function ParseHexColor(s: string): (res: Option<Rgb>)
    ensures res.Some? <==> MatchesHexColor(s)
    ensures res.Some? ==> IsByteTriple(res.value)
  {
    var d := if |s| == 7 && s[0] == '#' then s[1..] else s;
    if |d| == 6 && forall k | 0 <= k < 6 :: IsHexDigit(d[k]) then
      Some(Rgb(HexByte(d[0], d[1]), HexByte(d[2], d[3]), HexByte(d[4], d[5])))
    else
      None
  }

  /** The three channels in decimal, joined by ", " as `Array.prototype.join` does. */
  function RgbText(c: Rgb): string {
    Join([NatToDecimal(c.r), NatToDecimal(c.g), NatToDecimal(c.b)], ", ")
  }

  /** `hexToRgb`: the decimal channel triple of a hex colour, or the fallback. */
  function HexToRgb(hex: string): (rgb: string)
    ensures !MatchesHexColor(hex) ==> rgb == FallbackRgb
    ensures MatchesHexColor(hex) ==> rgb == RgbText(ParseHexColor(hex).value)
  {
    match ParseHexColor(hex)
    case None => FallbackRgb
    case Some(c) => RgbText(c)
  }

  /** The two hexadecimal digits of a byte, in one letter case. */
  function HexPair(v: nat, upper: bool): (s: string)
    requires v < 256
    ensures |s| == 2 && IsHexDigit(s[0]) && IsHexDigit(s[1])
  {
    [HexDigitChar(v / 16, upper), HexDigitChar(v % 16, upper)]
  }

  /** The `#RRGGBB` (or `RRGGBB`) spelling of a byte triple. */
  function HexColor(c: Rgb, hash: bool, upper: bool): (s: string)
    requires IsByteTriple(c)
  {
    (if hash then "#" else "") + HexPair(c.r, upper) + HexPair(c.g, upper) + HexPair(c.b, upper)
  }

  /**
   * Every six-digit hex colour, with or without `#`, in either letter case,
   * parses to the byte values it spells, printed in decimal.
   */
  lemma HexToRgbOfHexColor(c: Rgb, hash: bool, upper: bool)
    requires IsByteTriple(c)
    ensures MatchesHexColor(HexColor(c, hash, upper))
    ensures ParseHexColor(HexColor(c, hash, upper)) == Some(c)
    ensures HexToRgb(HexColor(c, hash, upper)) == RgbText(c)
  {
    var s := HexColor(c, hash, upper);
    var d := if hash then s[1..] else s;
    assert d == HexPair(c.r, upper) + HexPair(c.g, upper) + HexPair(c.b, upper);
    assert HexByte(d[0], d[1]) == c.r;
    assert HexByte(d[2], d[3]) == c.g;
    assert HexByte(d[4], d[5]) == c.b;
  }

  /** The printed channels determine the channels: each decimal piece reads back as its byte. */
  lemma RgbTextReadsBack(c: Rgb)
    ensures RgbText(c) == NatToDecimal(c.r) + ", " + NatToDecimal(c.g) + ", " + NatToDecimal(c.b)
    ensures ParseDecimal(NatToDecimal(c.r)) == c.r
    ensures ParseDecimal(NatToDecimal(c.g)) == c.g
    ensures ParseDecimal(NatToDecimal(c.b)) == c.b
  {
    var ps := [NatToDecimal(c.r), NatToDecimal(c.g), NatToDecimal(c.b)];
    assert ps[1..] == [NatToDecimal(c.g), NatToDecimal(c.b)];
    assert ps[1..][1..] == [NatToDecimal(c.b)];
    assert Join(ps[1..][1..], ", ") == NatToDecimal(c.b);
    assert Join(ps[1..], ", ") == NatToDecimal(c.g) + ", " + NatToDecimal(c.b);
    DecimalRoundTrip(c.r);
    DecimalRoundTrip(c.g);
    DecimalRoundTrip(c.b);
  }

  lemma HexDigitIgnoresCase(ch: char)
    ensures IsHexDigit(LowerChar(ch)) <==> IsHexDigit(ch)
    ensures IsHexDigit(ch) ==> HexValue(LowerChar(ch)) == HexValue(ch)
    ensures LowerChar(ch) == '#' <==> ch == '#'
  {
  }

  /** The `i` flag: the letter case of the input never changes the result. */
  lemma HexToRgbIgnoresCase(hex: string)
    ensures ParseHexColor(Lower(hex)) == ParseHexColor(hex)
    ensures HexToRgb(Lower(hex)) == HexToRgb(hex)
  {
    var l := Lower(hex);
    forall k | 0 <= k < |hex| ensures l[k] == LowerChar(hex[k]) {}
    forall k | 0 <= k < |hex| {
      HexDigitIgnoresCase(hex[k]);
    }
    var d := if |hex| == 7 && hex[0] == '#' then hex[1..] else hex;
    var e := if |l| == 7 && l[0] == '#' then l[1..] else l;
    assert |d| == |e|;
    assert forall k :: 0 <= k < |d| ==> e[k] == LowerChar(d[k]);
  }

  /** Three-digit shorthand, eight-digit colours and longer or shorter strings all fall back. */
  lemma HexToRgbRejectsOtherLengths(hex: string)
    requires |hex| != 6 && |hex| != 7
    ensures HexToRgb(hex) == FallbackRgb
  {
  }

  // ===================================================================
  // isWordHighlighted
  // ===================================================================

  /** Some entry of `hws`, lower-cased, occurs in the lower-cased `word` (`Array.prototype.some`). */
  function SomeIncluded(word: string, hws: seq<string>): (r: bool)
    ensures r <==> exists k :: 0 <= k < |hws| && Contains(Lower(word), Lower(hws[k]))
  {
    if |hws| == 0 then false
    else Contains(Lower(word), Lower(hws[0])) || SomeIncluded(word, hws[1..])
  }

  /** `isWordHighlighted`: case-insensitive substring match against any highlight entry. */
  function IsWordHighlighted(word: string, hws: seq<string>): (r: bool)
    ensures |hws| == 0 ==> !r
    ensures r <==> exists k, i :: 0 <= k < |hws| && OccursAt(Lower(word), Lower(hws[k]), i)
  {
    if |hws| == 0 then false else SomeIncluded(word, hws)
  }

  /** An empty highlight entry occurs in every word, so it highlights all of them. */
  lemma EmptyEntryHighlightsEveryWord(word: string, hws: seq<string>)
    requires "" in hws
    ensures IsWordHighlighted(word, hws)
  {
    var k :| 0 <= k < |hws| && hws[k] == "";
    assert OccursAt(Lower(word), Lower(hws[k]), 0);
  }

  /** A word is highlighted whenever one of the entries is the word itself, in any case. */
  lemma WordHighlightsItself(word: string, hws: seq<string>, k: nat)
    requires k < |hws| && Lower(hws[k]) == Lower(word)
    ensures IsWordHighlighted(word, hws)
  {
    assert Lower(word)[0..|Lower(word)|] == Lower(word);
    assert OccursAt(Lower(word), Lower(hws[k]), 0);
  }

  // ===================================================================
  // Word windows
  // ===================================================================

  /** Extra virtual words of range added after the last word (`paddingDuration`). */
  const PaddingDuration: real := 0.0

  /** `1 / (totalWords + leadCount + paddingDuration)`: one slot of the timeline. */
  function WindowSize(n: nat, lead: real, padding: real): (w: real)
    requires n as real + lead + padding > 0.0
    ensures w > 0.0
    ensures w * (n as real + lead + padding) == 1.0
  {
    1.0 / (n as real + lead + padding)
  }

  datatype Window = Window(start: real, end: real)

  /** The window of word `i`: it opens at slot `i` and closes `leadCount + 1` slots later. */
  function WordWindow(i: nat, n: nat, lead: real, padding: real): Window
    requires n as real + lead + padding > 0.0
  {
    var w := WindowSize(n, lead, padding);
    Window(i as real * w, (i as real + lead + 1.0) * w)
  }

  lemma MulPositiveStrict(w: real, a: real, b: real)
    requires w > 0.0 && a < b
    ensures a * w < b * w
  {
  }

  /** A word's window is a non-empty interval whenever the lead count exceeds -1. */
  lemma {:induction false} WindowNonEmpty(i: nat, n: nat, lead: real, padding: real)
    requires n as real + lead + padding > 0.0
    requires lead > -1.0
    ensures WordWindow(i, n, lead, padding).start < WordWindow(i, n, lead, padding).end
  {
    MulPositiveStrict(WindowSize(n, lead, padding), i as real, i as real + lead + 1.0);
  }

  /** Later words open and close strictly later. */
  lemma {:induction false} WindowsIncrease(i: nat, j: nat, n: nat, lead: real, padding: real)
    requires n as real + lead + padding > 0.0
    requires i < j
    ensures WordWindow(i, n, lead, padding).start < WordWindow(j, n, lead, padding).start
    ensures WordWindow(i, n, lead, padding).end < WordWindow(j, n, lead, padding).end
  {
    var w := WindowSize(n, lead, padding);
    MulPositiveStrict(w, i as real, j as real);
    MulPositiveStrict(w, i as real + lead + 1.0, j as real + lead + 1.0);
  }

  /**
   * With the configured padding of 0 every window lies inside [0, 1] and the
   * last word's window closes exactly at the end of the timeline.
   */
  lemma {:induction false} WindowsFitTimeline(i: nat, n: nat, lead: real)
    requires n as real + lead > 0.0
    requires i < n
    ensures 0.0 <= WordWindow(i, n, lead, PaddingDuration).start
    ensures WordWindow(i, n, lead, PaddingDuration).end <= 1.0
    ensures WordWindow(n - 1, n, lead, PaddingDuration).end == 1.0
  {
    var w := WindowSize(n, lead, PaddingDuration);
    assert (n as real - 1.0 + lead + 1.0) * w == 1.0;
    if i < n - 1 {
      MulPositiveStrict(w, i as real + lead + 1.0, n as real + lead);
    }
  }

  // ===================================================================
  // Phases and breakpoints
  // ===================================================================

  /** `phaseToScroll`: the point a fraction `phase` of the way through the window. */
  function PhaseToScroll(win: Window, phase: real): real
  {
    win.start + (win.end - win.start) * phase
  }

  /** `phaseToScroll` is the affine map sending phase 0 to the window's start and phase 1 to its end. */
  lemma PhaseToScrollAffine(win: Window, p: real, q: real, lambda: real)
    ensures PhaseToScroll(win, 0.0) == win.start
    ensures PhaseToScroll(win, 1.0) == win.end
    ensures PhaseToScroll(win, (1.0 - lambda) * p + lambda * q)
         == (1.0 - lambda) * PhaseToScroll(win, p) + lambda * PhaseToScroll(win, q)
  {
    var d := win.end - win.start;
    assert d * ((1.0 - lambda) * p + lambda * q) == (1.0 - lambda) * (d * p) + lambda * (d * q);
  }

  /** Phase boundaries, as fractions of a word's window. */
  const EmergenceStart: real := 0.0
  const EmergenceEnd: real := 0.1
  const FocusStart: real := 0.1
  const FocusEnd: real := 0.5
  const RevealStart: real := 0.5
  const RevealEnd: real := 0.8

  /** The phase lists given to `useTransform` for each animated property. */
  const BoxPhases: seq<real> := [EmergenceStart, EmergenceEnd, FocusEnd, RevealEnd]
  const BackgroundPhases: seq<real> := [EmergenceStart, FocusStart, FocusEnd]
  const RevealPhases: seq<real> := [RevealStart, RevealEnd]

  /** Output keyframes of the animated properties. */
  const BoxOpacityFrames: seq<real> := [0.0, 0.3, 1.0, 0.0]
  const BoxScaleFrames: seq<real> := [0.92, 0.97, 1.0, 1.03]
  const BoxBlurFrames: seq<real> := [0.0, 10.0]
  const TextOpacityFrames: seq<real> := [0.0, 1.0]
  const TextYFrames: seq<real> := [4.0, 0.0]

  function BackgroundFrames(highlighted: bool): seq<real> {
    [0.08, 0.25, if highlighted then 0.5 else 0.4]
  }

  ghost predicate StrictlyIncreasing(xs: seq<real>) {
    forall a, b :: 0 <= a < b < |xs| ==> xs[a] < xs[b]
  }

  ghost predicate WithinWindow(xs: seq<real>, win: Window) {
    forall a :: 0 <= a < |xs| ==> win.start <= xs[a] <= win.end
  }

  /** The breakpoints of a property: its phase list mapped onto the window. */
  function Breakpoints(win: Window, phases: seq<real>): (xs: seq<real>)
    ensures |xs| == |phases|
    ensures forall a :: 0 <= a < |phases| ==> xs[a] == PhaseToScroll(win, phases[a])
  {
    seq(|phases|, a requires 0 <= a < |phases| => PhaseToScroll(win, phases[a]))
  }

  lemma PhaseToScrollIncreasing(win: Window, p: real, q: real)
    requires win.start < win.end && p < q
    ensures PhaseToScroll(win, p) < PhaseToScroll(win, q)
  {
    var d := win.end - win.start;
    assert d * q - d * p == d * (q - p);
    assert d * (q - p) > 0.0;
  }

  lemma PhaseToScrollInWindow(win: Window, p: real)
    requires win.start < win.end && 0.0 <= p <= 1.0
    ensures win.start <= PhaseToScroll(win, p) <= win.end
  {
    var d := win.end - win.start;
    assert d * p >= 0.0;
    assert d - d * p == d * (1.0 - p);
    assert d * (1.0 - p) >= 0.0;
  }

  /** `phaseToScroll` is strictly increasing and maps [0, 1] into the window. */
  lemma PhaseToScrollMonotone(win: Window, p: real, q: real)
    requires win.start < win.end
    ensures p < q ==> PhaseToScroll(win, p) < PhaseToScroll(win, q)
    ensures 0.0 <= p <= 1.0 ==> win.start <= PhaseToScroll(win, p) <= win.end
  {
    if p < q {
      PhaseToScrollIncreasing(win, p, q);
    }
    if 0.0 <= p <= 1.0 {
      PhaseToScrollInWindow(win, p);
    }
  }

  /** Phase lists that increase strictly inside [0, 1] give breakpoints that do so inside the window. */
  lemma BreakpointsOrdered(win: Window, phases: seq<real>)
    requires win.start < win.end
    requires StrictlyIncreasing(phases)
    requires forall a :: 0 <= a < |phases| ==> 0.0 <= phases[a] <= 1.0
    ensures StrictlyIncreasing(Breakpoints(win, phases))
    ensures WithinWindow(Breakpoints(win, phases), win)
  {
    var xs := Breakpoints(win, phases);
    forall a, b | 0 <= a < b < |xs| ensures xs[a] < xs[b] {
      PhaseToScrollMonotone(win, phases[a], phases[b]);
    }
    forall a | 0 <= a < |xs| ensures win.start <= xs[a] <= win.end {
      PhaseToScrollMonotone(win, phases[a], phases[a]);
    }
  }

  /** Every breakpoint list the component builds increases strictly and stays inside the word's window. */
  lemma {:induction false} AllBreakpointListsOrdered(i: nat, n: nat, lead: real, padding: real)
    requires n as real + lead + padding > 0.0
    requires lead > -1.0
    ensures var win := WordWindow(i, n, lead, padding);
      && StrictlyIncreasing(Breakpoints(win, BoxPhases)) && WithinWindow(Breakpoints(win, BoxPhases), win)
      && StrictlyIncreasing(Breakpoints(win, BackgroundPhases)) && WithinWindow(Breakpoints(win, BackgroundPhases), win)
      && StrictlyIncreasing(Breakpoints(win, RevealPhases)) && WithinWindow(Breakpoints(win, RevealPhases), win)
  {
    var win := WordWindow(i, n, lead, padding);
    WindowNonEmpty(i, n, lead, padding);
    BreakpointsOrdered(win, BoxPhases);
    BreakpointsOrdered(win, BackgroundPhases);
    BreakpointsOrdered(win, RevealPhases);
  }

  // ===================================================================
  // Piecewise-linear interpolation (`useTransform` with clamping)
  // ===================================================================

  /** How far `t` has gone from `x0` towards `x1`, as a fraction of the segment. */
  function Progress(x0: real, x1: real, t: real): real
    requires x0 < x1
  {
    (t - x0) / (x1 - x0)
  }

  /** `mix`: the value a fraction `u` of the way from `y0` to `y1`. */
  function Mix(y0: real, y1: real, u: real): real {
    y0 + (y1 - y0) * u
  }

  /** The straight line through (x0, y0) and (x1, y1), evaluated at `t`. */
  function Lerp(x0: real, x1: real, y0: real, y1: real, t: real): real
    requires x0 < x1
  {
    Mix(y0, y1, Progress(x0, x1, t))
  }

  /**
   * The value at `t` of the piecewise-linear map through the points
   * (xs[k], ys[k]), held constant before the first and after the last.
   */
  function Interp(xs: seq<real>, ys: seq<real>, t: real): real
    requires |xs| == |ys| >= 1
    requires StrictlyIncreasing(xs)
  {
    if |xs| == 1 || t <= xs[0] then ys[0]
    else if t <= xs[1] then Lerp(xs[0], xs[1], ys[0], ys[1], t)
    else Interp(xs[1..], ys[1..], t)
  }

  lemma LerpEnds(x0: real, x1: real, y0: real, y1: real)
    requires x0 < x1
    ensures Lerp(x0, x1, y0, y1, x0) == y0
    ensures Lerp(x0, x1, y0, y1, x1) == y1
  {
  }

  /** On a rising segment the line rises and stays between its end values. */
  lemma LerpRising(x0: real, x1: real, y0: real, y1: real, t1: real, t2: real)
    requires x0 < x1 && y0 <= y1
    requires x0 <= t1 <= t2 <= x1
    ensures y0 <= Lerp(x0, x1, y0, y1, t1) <= Lerp(x0, x1, y0, y1, t2) <= y1
  {
    ProgressInUnit(x0, x1, t1);
    ProgressInUnit(x0, x1, t2);
    ProgressMonotone(x0, x1, t1, t2);
    MixUp(y0, y1, Progress(x0, x1, t1));
    MixUp(y0, y1, Progress(x0, x1, t2));
    MixStep(y0, y1, Progress(x0, x1, t1), Progress(x0, x1, t2));
  }

  /** On any segment the line stays between its end values. */
  lemma LerpBetween(x0: real, x1: real, y0: real, y1: real, t: real, lo: real, hi: real)
    requires x0 < x1 && x0 <= t <= x1
    requires lo <= y0 <= hi && lo <= y1 <= hi
    ensures lo <= Lerp(x0, x1, y0, y1, t) <= hi
  {
    ProgressInUnit(x0, x1, t);
    if y0 <= y1 {
      MixUp(y0, y1, Progress(x0, x1, t));
    } else {
      MixDown(y0, y1, Progress(x0, x1, t));
    }
  }

  /** Within the segment the progress lies in [0, 1]. */
  lemma ProgressInUnit(x0: real, x1: real, t: real)
    requires x0 < x1 && x0 <= t <= x1
    ensures 0.0 <= Progress(x0, x1, t) <= 1.0
  {
    FractionInUnit(t - x0, x1 - x0);
  }

  /** A quotient of a part of a positive whole by the whole lies in [0, 1]. */
  lemma FractionInUnit(a: real, d: real)
    requires d > 0.0 && 0.0 <= a <= d
    ensures 0.0 <= a / d <= 1.0
  {
    var u := a / d;
    assert u * d == a;
  }

  /** Progress grows with `t`. */
  lemma ProgressMonotone(x0: real, x1: real, t1: real, t2: real)
    requires x0 < x1 && t1 <= t2
    ensures Progress(x0, x1, t1) <= Progress(x0, x1, t2)
  {
    var d := x1 - x0;
    assert Progress(x0, x1, t2) - Progress(x0, x1, t1) == (t2 - t1) / d;
  }

  /** Scaling a non-negative value by a fraction in [0, 1] lands between 0 and the value. */
  lemma ScaleByFraction(k: real, u: real)
    requires 0.0 <= u <= 1.0 && k >= 0.0
    ensures 0.0 <= k * u <= k
  {
    assert k - k * u == k * (1.0 - u);
  }

  /** Mixing a rising pair lands between them. */
  lemma MixUp(y0: real, y1: real, u: real)
    requires 0.0 <= u <= 1.0 && y0 <= y1
    ensures y0 <= Mix(y0, y1, u) <= y1
  {
    var k := y1 - y0;
    ScaleByFraction(k, u);
    calc {
      Mix(y0, y1, u);
      y0 + k * u;
    <= y0 + k;
      y1;
    }
  }

  /** Mixing a falling pair lands between them. */
  lemma MixDown(y0: real, y1: real, u: real)
    requires 0.0 <= u <= 1.0 && y1 <= y0
    ensures y1 <= Mix(y0, y1, u) <= y0
  {
    var k := y0 - y1;
    ScaleByFraction(k, u);
    calc {
      Mix(y0, y1, u);
      y0 - k * u;
    >= y0 - k;
      y1;
    }
  }

  /** Mixing a rising pair rises with `u`. */
  lemma MixStep(y0: real, y1: real, u1: real, u2: real)
    requires 0.0 <= u1 <= u2 <= 1.0 && y0 <= y1
    ensures Mix(y0, y1, u1) <= Mix(y0, y1, u2)
  {
    var k := y1 - y0;
    ScaleByFraction(k, u2 - u1);
    assert Mix(y0, y1, u2) - Mix(y0, y1, u1) == k * u2 - k * u1;
    assert k * u2 - k * u1 == k * (u2 - u1);
  }

  /** The map passes through each of its points. */
  lemma {:induction false} InterpAtBreakpoint(xs: seq<real>, ys: seq<real>, k: nat)
    requires |xs| == |ys| >= 1 && StrictlyIncreasing(xs)
    requires k < |xs|
    ensures Interp(xs, ys, xs[k]) == ys[k]
  {
    if k == 1 {
      LerpEnds(xs[0], xs[1], ys[0], ys[1]);
    } else if k > 1 {
      InterpAtBreakpoint(xs[1..], ys[1..], k - 1);
    }
  }

  /** Past the second point the first segment plays no part. */
  lemma InterpDropFirst(xs: seq<real>, ys: seq<real>, t: real)
    requires |xs| == |ys| >= 2 && StrictlyIncreasing(xs)
    requires t >= xs[1]
    ensures Interp(xs, ys, t) == Interp(xs[1..], ys[1..], t)
  {
    if t == xs[1] {
      LerpEnds(xs[0], xs[1], ys[0], ys[1]);
    }
  }

  /** Clamping: the map is constant before its first point and after its last one. */
  lemma {:induction false} InterpClamps(xs: seq<real>, ys: seq<real>, t: real)
    requires |xs| == |ys| >= 1 && StrictlyIncreasing(xs)
    ensures t <= xs[0] ==> Interp(xs, ys, t) == ys[0]
    ensures t >= xs[|xs| - 1] ==> Interp(xs, ys, t) == ys[|ys| - 1]
  {
    if |xs| > 1 && t >= xs[|xs| - 1] {
      InterpDropFirst(xs, ys, t);
      InterpClamps(xs[1..], ys[1..], t);
    }
  }

  /** The map never leaves the range of its output values. */
  lemma {:induction false} InterpWithin(xs: seq<real>, ys: seq<real>, t: real, lo: real, hi: real)
    requires |xs| == |ys| >= 1 && StrictlyIncreasing(xs)
    requires forall a :: 0 <= a < |ys| ==> lo <= ys[a] <= hi
    ensures lo <= Interp(xs, ys, t) <= hi
  {
    if |xs| > 1 && xs[0] < t {
      if t <= xs[1] {
        LerpBetween(xs[0], xs[1], ys[0], ys[1], t, lo, hi);
      } else {
        InterpWithin(xs[1..], ys[1..], t, lo, hi);
      }
    }
  }

  ghost predicate NonDecreasingOn(ys: seq<real>, a: nat, b: nat) {
    forall p, q :: a <= p < q <= b && q < |ys| ==> ys[p] <= ys[q]
  }

  /** Between points a and b, over which the outputs do not decrease, the map does not decrease. */
  lemma {:induction false} InterpMonotoneOn(xs: seq<real>, ys: seq<real>, a: nat, b: nat, t1: real, t2: real)
    requires |xs| == |ys| >= 1 && StrictlyIncreasing(xs)
    requires a <= b < |xs|
    requires NonDecreasingOn(ys, a, b)
    requires xs[a] <= t1 <= t2 <= xs[b]
    ensures Interp(xs, ys, t1) <= Interp(xs, ys, t2)
  {
    if a == b || |xs| == 1 {
      assert t1 == t2;
    } else if a > 0 {
      InterpDropFirst(xs, ys, t1);
      InterpDropFirst(xs, ys, t2);
      InterpMonotoneOn(xs[1..], ys[1..], a - 1, b - 1, t1, t2);
    } else if t2 <= xs[1] {
      LerpEnds(xs[0], xs[1], ys[0], ys[1]);
      LerpRising(xs[0], xs[1], ys[0], ys[1], t1, t2);
    } else if t1 <= xs[1] {
      LerpEnds(xs[0], xs[1], ys[0], ys[1]);
      LerpRising(xs[0], xs[1], ys[0], ys[1], t1, xs[1]);
      InterpAtBreakpoint(xs[1..], ys[1..], 0);
      InterpMonotoneOn(xs[1..], ys[1..], 0, b - 1, xs[1], t2);
    } else {
      InterpMonotoneOn(xs[1..], ys[1..], 0, b - 1, t1, t2);
    }
  }

  function Negate(ys: seq<real>): (zs: seq<real>)
    ensures |zs| == |ys| && forall a :: 0 <= a < |ys| ==> zs[a] == -ys[a]
  {
    seq(|ys|, a requires 0 <= a < |ys| => -ys[a])
  }

  /** Interpolation is linear in the outputs. */
  lemma {:induction false} InterpNegate(xs: seq<real>, ys: seq<real>, t: real)
    requires |xs| == |ys| >= 1 && StrictlyIncreasing(xs)
    ensures Interp(xs, Negate(ys), t) == -Interp(xs, ys, t)
  {
    if |xs| > 1 && xs[0] < t && xs[1] < t {
      assert Negate(ys)[1..] == Negate(ys[1..]);
      InterpNegate(xs[1..], ys[1..], t);
    }
  }

  /** Between points a and b, over which the outputs do not increase, the map does not increase. */
  lemma InterpAntitoneOn(xs: seq<real>, ys: seq<real>, a: nat, b: nat, t1: real, t2: real)
    requires |xs| == |ys| >= 1 && StrictlyIncreasing(xs)
    requires a <= b < |xs|
    requires forall p, q :: a <= p < q <= b ==> ys[p] >= ys[q]
    requires xs[a] <= t1 <= t2 <= xs[b]
    ensures Interp(xs, ys, t1) >= Interp(xs, ys, t2)
  {
    InterpMonotoneOn(xs, Negate(ys), a, b, t1, t2);
    InterpNegate(xs, ys, t1);
    InterpNegate(xs, ys, t2);
  }

  // ===================================================================
  // The box opacity of a word
  // ===================================================================

  /** `boxOpacity` of word `i` at scroll progress `t`. */
  function BoxOpacity(i: nat, n: nat, lead: real, padding: real, t: real): real
    requires n as real + lead + padding > 0.0
    requires lead > -1.0
  {
    var win := WordWindow(i, n, lead, padding);
    AllBreakpointListsOrdered(i, n, lead, padding);
    Interp(Breakpoints(win, BoxPhases), BoxOpacityFrames, t)
  }

  /**
   * The box is invisible until its window opens, fades in to 0.3 through
   * emergence and to full opacity at the end of focus, fades out to nothing at
   * the end of the reveal and stays invisible afterwards; it never leaves [0, 1].
   */
  lemma BoxOpacityKeyframes(i: nat, n: nat, lead: real, padding: real, t: real)
    requires n as real + lead + padding > 0.0
    requires lead > -1.0
    ensures var xs := Breakpoints(WordWindow(i, n, lead, padding), BoxPhases);
      && BoxOpacity(i, n, lead, padding, xs[0]) == 0.0
      && BoxOpacity(i, n, lead, padding, xs[1]) == 0.3
      && BoxOpacity(i, n, lead, padding, xs[2]) == 1.0
      && BoxOpacity(i, n, lead, padding, xs[3]) == 0.0
      && (t <= xs[0] || xs[3] <= t ==> BoxOpacity(i, n, lead, padding, t) == 0.0)
      && 0.0 <= BoxOpacity(i, n, lead, padding, t) <= 1.0
  {
    var xs := Breakpoints(WordWindow(i, n, lead, padding), BoxPhases);
    AllBreakpointListsOrdered(i, n, lead, padding);
    InterpAtBreakpoint(xs, BoxOpacityFrames, 0);
    InterpAtBreakpoint(xs, BoxOpacityFrames, 1);
    InterpAtBreakpoint(xs, BoxOpacityFrames, 2);
    InterpAtBreakpoint(xs, BoxOpacityFrames, 3);
    InterpClamps(xs, BoxOpacityFrames, t);
    InterpWithin(xs, BoxOpacityFrames, t, 0.0, 1.0);
  }

  /** Box opacity does not decrease up to the end of focus and does not increase after it. */
  lemma BoxOpacityRisesThenFalls(i: nat, n: nat, lead: real, padding: real, t1: real, t2: real)
    requires n as real + lead + padding > 0.0
    requires lead > -1.0
    requires t1 <= t2
    ensures var xs := Breakpoints(WordWindow(i, n, lead, padding), BoxPhases);
      && (t2 <= xs[2] ==> BoxOpacity(i, n, lead, padding, t1) <= BoxOpacity(i, n, lead, padding, t2))
      && (xs[2] <= t1 ==> BoxOpacity(i, n, lead, padding, t1) >= BoxOpacity(i, n, lead, padding, t2))
  {
    var xs := Breakpoints(WordWindow(i, n, lead, padding), BoxPhases);
    var ys := BoxOpacityFrames;
    AllBreakpointListsOrdered(i, n, lead, padding);
    InterpClamps(xs, ys, t1);
    InterpClamps(xs, ys, t2);
    if t2 <= xs[2] {
      if t1 < xs[0] {
        InterpWithin(xs, ys, t2, 0.0, 1.0);
      } else {
        InterpMonotoneOn(xs, ys, 0, 2, t1, t2);
      }
    }
    if xs[2] <= t1 {
      if xs[3] < t2 {
        InterpWithin(xs, ys, t1, 0.0, 1.0);
      } else {
        InterpAntitoneOn(xs, ys, 2, 3, t1, t2);
      }
    }
  }

  // ===================================================================
  // Lead count, scroll distance and the total scroll height
  // ===================================================================

  datatype AnimationConfig = AnimationConfig(
    leadCount: Option<real>,
    scrollDistance: Option<real>,
    springStiffness: Option<real>,
    springDamping: Option<real>)

  /** The words of the phrase: its `" "`-separated pieces. */
  function Words(phrase: string): (ws: seq<string>)
    ensures |ws| == multiset(phrase)[' '] + 1
  {
    Split(phrase, ' ')
  }

  /** `config.leadCount ?? (isMobile ? 8 : 12)`. */
  function LeadCount(config: AnimationConfig, isMobile: bool): real {
    Coalesce(config.leadCount, if isMobile then 8.0 else 12.0)
  }

  /** `config.scrollDistance ?? (isMobile ? 40 : 60)`. */
  function ScrollDistance(config: AnimationConfig, isMobile: bool): real {
    Coalesce(config.scrollDistance, if isMobile then 40.0 else 60.0)
  }

  /** `totalScrollDistance` for `wordCount` words, `lead` lead slots and `d` pixels per slot. */
  function ScrollHeight(wordCount: nat, lead: real, d: real): real {
    (wordCount as real + lead) * d + PaddingDuration * d
  }

  /** `totalScrollDistance`: pixels of scroll added below the pinned view. */
  function TotalScrollDistance(phrase: string, config: AnimationConfig, isMobile: bool): real {
    ScrollHeight(|Words(phrase)|, LeadCount(config, isMobile), ScrollDistance(config, isMobile))
  }

  /**
   * The total scroll height is (words + lead + padding) slots of `d`
   * pixels, so one window slot of the timeline is exactly `d` pixels of
   * scrolling.
   */
  lemma TotalScrollDistanceSlots(n: nat, lead: real, d: real)
    ensures ScrollHeight(n, lead, d) == (n as real + lead + PaddingDuration) * d
    ensures n as real + lead + PaddingDuration > 0.0 ==> WindowSize(n, lead, PaddingDuration) * ScrollHeight(n, lead, d) == d
  {
    var a := n as real + lead;
    SumTimes(a, PaddingDuration, d);
    if a + PaddingDuration > 0.0 {
      SlotTimesTotal(WindowSize(n, lead, PaddingDuration), a, PaddingDuration, d);
    }
  }

  lemma SumTimes(a: real, b: real, d: real)
    ensures a * d + b * d == (a + b) * d
  {
  }

  /** A window `w` with `w * (a + p) == 1` times the total `a * d + p * d` is `d`. */
  lemma SlotTimesTotal(w: real, a: real, p: real, d: real)
    requires w * (a + p) == 1.0
    ensures w * (a * d + p * d) == d
  {
    SumTimes(a, p, d);
    assert w * ((a + p) * d) == (w * (a + p)) * d;
  }

  /** Without overrides the defaults are 8 words of lead and 40 px on mobile, 12 and 60 px on desktop. */
  lemma DefaultsByViewport(phrase: string, isMobile: bool)
    ensures var none := AnimationConfig(None, None, None, None);
      && LeadCount(none, isMobile) == (if isMobile then 8.0 else 12.0)
      && ScrollDistance(none, isMobile) == (if isMobile then 40.0 else 60.0)
      && TotalScrollDistance(phrase, none, isMobile)
         == (multiset(phrase)[' '] as real + 1.0 + (if isMobile then 8.0 else 12.0)) * (if isMobile then 40.0 else 60.0)
  {
  }
}
