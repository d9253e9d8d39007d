/**
 * Magnetic Button (`registry/new-york/ui/magnetic-button.tsx`): a circular
 * "flair" follows the pointer inside the button. Pointer coordinates are
 * mapped to percentages of the button's box and clamped to [0, 100]; on
 * leave the flair shrinks away, overshooting by 20 points when it leaves
 * through an outer 10% band. The flair is modelled by the targets the
 * animation library is asked to reach (position in percent, scale), not by
 * the tween in between.
 */
module MagneticButton {
  import opened Wrappers

  /** `getBoundingClientRect()`: only boxes with a positive size are modelled. */
  datatype Rect = Rect(left: real, top: real, width: real, height: real)

  predicate ValidRect(r: Rect) {
    r.width > 0.0 && r.height > 0.0
  }

  datatype Point = Point(x: real, y: real)

  /** `gsap.utils.clamp(lo, hi)`. */
  function Clamp(v: real, lo: real, hi: real): real
    requires lo <= hi
  {
    if v < lo then lo else if v > hi then hi else v
  }

  /** `gsap.utils.mapRange(0, size, 0, 100)` followed by `clamp(0, 100)`. */
  function Percent(offset: real, size: real): real
    requires size > 0.0
  {
    Clamp(offset * 100.0 / size, 0.0, 100.0)
  }

  /** `getXY`: the pointer as percentages of the box. */
  function GetXY(clientX: real, clientY: real, box: Rect): (p: Point)
    requires ValidRect(box)
    ensures 0.0 <= p.x <= 100.0 && 0.0 <= p.y <= 100.0
  {
    Point(Percent(clientX - box.left, box.width), Percent(clientY - box.top, box.height))
  }

  /**
   * Inside the box the percentage is the exact proportion of the offset to
   * the size: the left edge is 0, the right edge 100, and a pointer
   * outside is clamped to the nearer edge.
   */
  lemma PercentProportional(offset: real, size: real)
    requires size > 0.0
    ensures 0.0 <= offset <= size ==> Percent(offset, size) * size == offset * 100.0
    ensures offset <= 0.0 ==> Percent(offset, size) == 0.0
    ensures offset >= size ==> Percent(offset, size) == 100.0
  {
    var q := offset * 100.0 / size;
    assert q * size == offset * 100.0;
    if offset <= 0.0 {
      DivMonotone(offset * 100.0, 0.0, size);
    }
    if offset >= size {
      DivMonotone(size * 100.0, offset * 100.0, size);
      assert size * 100.0 / size == 100.0;
    }
    if 0.0 <= offset <= size {
      DivMonotone(0.0, offset * 100.0, size);
      DivMonotone(offset * 100.0, size * 100.0, size);
      assert size * 100.0 / size == 100.0;
    }
  }

  /** Moving the pointer right (down) never moves the flair left (up). */
  lemma PercentMonotone(o1: real, o2: real, size: real)
    requires size > 0.0 && o1 <= o2
    ensures Percent(o1, size) <= Percent(o2, size)
  {
    assert o1 * 100.0 <= o2 * 100.0;
    DivMonotone(o1 * 100.0, o2 * 100.0, size);
  }

  lemma DivMonotone(a: real, b: real, d: real)
    requires d > 0.0 && a <= b
    ensures a / d <= b / d
  {
    assert (b / d - a / d) * d == b - a;
  }

  /** The exit offset of one coordinate on leave. */
  function ExitOffset(c: real): real {
    if c > 90.0 then c + 20.0 else if c < 10.0 then c - 20.0 else c
  }

  /**
   * The overshoot happens exactly in the outer 10% bands and always pushes
   * outward; for a clamped coordinate the exit target lies in [-20, 120].
   */
  lemma ExitOffsetRules(c: real)
    ensures ExitOffset(c) != c <==> c > 90.0 || c < 10.0
    ensures c > 90.0 ==> ExitOffset(c) > c
    ensures c < 10.0 ==> ExitOffset(c) < c
    ensures 0.0 <= c <= 100.0 ==> -20.0 <= ExitOffset(c) <= 120.0
  {
  }

  /** What the leave handler receives: a mouse event with coordinates, or `null` from `touchend`. */
  function ExitTarget(pointer: Option<Point>, box: Rect): (p: Point)
    requires ValidRect(box)
  {
    var at := match pointer
      case Some(q) => GetXY(q.x, q.y, box)
      case None => Point(50.0, 50.0);
    Point(ExitOffset(at.x), ExitOffset(at.y))
  }

  /** A touch end leaves from the centre, where no overshoot applies. */
  lemma TouchEndLeavesFromCentre(box: Rect)
    requires ValidRect(box)
    ensures ExitTarget(None, box) == Point(50.0, 50.0)
  {
  }

  /** The targets the flair is being animated towards. */
  class Flair {
    var xPercent: real
    var yPercent: real
    var scale: real

    /** The flair starts hidden (`scale-0`). */
    constructor ()
      ensures xPercent == 0.0 && yPercent == 0.0 && scale == 0.0
    {
      xPercent := 0.0;
      yPercent := 0.0;
      scale := 0.0;
    }

    /** `mouseEnter`: jump to the pointer, grow to full size. */
    method MouseEnter(clientX: real, clientY: real, box: Rect)
      requires ValidRect(box)
      modifies this
      ensures Point(xPercent, yPercent) == GetXY(clientX, clientY, box) && scale == 1.0
    {
      var p := GetXY(clientX, clientY, box);
      xPercent := p.x;
      yPercent := p.y;
      scale := 1.0;
    }

    /** `mouseMove`: follow the pointer, size unchanged. */
    method MouseMove(clientX: real, clientY: real, box: Rect)
      requires ValidRect(box)
      modifies this
      ensures Point(xPercent, yPercent) == GetXY(clientX, clientY, box) && scale == old(scale)
    {
      var p := GetXY(clientX, clientY, box);
      xPercent := p.x;
      yPercent := p.y;
    }

    /** `mouseLeave`: shrink away towards the exit target. */
    method MouseLeave(pointer: Option<Point>, box: Rect)
      requires ValidRect(box)
      modifies this
      ensures Point(xPercent, yPercent) == ExitTarget(pointer, box) && scale == 0.0
    {
      var x := 50.0;
      var y := 50.0;
      if pointer.Some? {
        var coords := GetXY(pointer.value.x, pointer.value.y, box);
        x := coords.x;
        y := coords.y;
      }
      xPercent := ExitOffset(x);
      yPercent := ExitOffset(y);
      scale := 0.0;
    }

    /** `touchStart`: the first touch acts as a mouse enter; an empty touch list is ignored. */
    method TouchStart(touches: seq<Point>, box: Rect)
      requires ValidRect(box)
      modifies this
      ensures |touches| == 0 ==> xPercent == old(xPercent) && yPercent == old(yPercent) && scale == old(scale)
      ensures |touches| > 0 ==> Point(xPercent, yPercent) == GetXY(touches[0].x, touches[0].y, box) && scale == 1.0
    {
      if |touches| == 0 {
        return;
      }
      MouseEnter(touches[0].x, touches[0].y, box);
    }

    /** `touchMove`: the first touch acts as a mouse move; an empty touch list is ignored. */
    method TouchMove(touches: seq<Point>, box: Rect)
      requires ValidRect(box)
      modifies this
      ensures |touches| == 0 ==> xPercent == old(xPercent) && yPercent == old(yPercent)
      ensures |touches| > 0 ==> Point(xPercent, yPercent) == GetXY(touches[0].x, touches[0].y, box)
      ensures scale == old(scale)
    {
      if |touches| == 0 {
        return;
      }
      MouseMove(touches[0].x, touches[0].y, box);
    }

    /** `touchEnd`: a leave without coordinates. */
    method TouchEnd(box: Rect)
      requires ValidRect(box)
      modifies this
      ensures xPercent == 50.0 && yPercent == 50.0 && scale == 0.0
    {
      MouseLeave(None, box);
    }
  }

  /**
   * A touch that starts, moves once and lifts: while the finger is down the
   * flair stays within the box (or where it was, for an empty touch list),
   * then it leaves from the centre and disappears.
   */
  method TouchGesture(start: seq<Point>, move: seq<Point>, box: Rect) returns (down: Point, moved: Point, exit: Point, finalScale: real)
    requires ValidRect(box)
    ensures 0.0 <= down.x <= 100.0 && 0.0 <= down.y <= 100.0
    ensures 0.0 <= moved.x <= 100.0 && 0.0 <= moved.y <= 100.0
    ensures |start| > 0 ==> down == GetXY(start[0].x, start[0].y, box)
    ensures |move| == 0 ==> moved == down
    ensures exit == Point(50.0, 50.0) && finalScale == 0.0
  {
    var flair := new Flair();
    flair.TouchStart(start, box);
    down := Point(flair.xPercent, flair.yPercent);
    flair.TouchMove(move, box);
    moved := Point(flair.xPercent, flair.yPercent);
    flair.TouchEnd(box);
    exit := Point(flair.xPercent, flair.yPercent);
    finalScale := flair.scale;
  }

  // ---------------------------------------------------------------------
  // Colours and label
  // ---------------------------------------------------------------------

  datatype HoverVariant = Light | Dark | Custom

  /** `flairColor`: no class when a custom colour is given, else white for `light`, black otherwise. */
  function FlairColor(customColor: Option<string>, variant: Option<HoverVariant>): string {
    if Truthy(customColor) then ""
    else if Coalesce(variant, Light) == Light then "bg-white"
    else "bg-black"
  }

  /** `textHoverColor`. */
  function TextHoverColor(customColor: Option<string>, variant: Option<HoverVariant>): string {
    if Truthy(customColor) then "group-hover:text-black"
    else if Coalesce(variant, Light) == Light then "group-hover:text-black"
    else "group-hover:text-white"
  }

  /** The inline style of the flair: a background only for a custom colour. */
  function FlairBackground(customColor: Option<string>): (bg: Option<string>)
    ensures bg.Some? <==> Truthy(customColor)
  {
    if Truthy(customColor) then Some(customColor.value) else None
  }

  /**
   * Text turns white over a black flair and black over every other flair, a
   * `custom` variant without a colour falls back to black, and a custom
   * colour is painted inline instead of through a class.
   */
  lemma HoverColoursContrast(customColor: Option<string>, variant: Option<HoverVariant>)
    ensures TextHoverColor(customColor, variant) == "group-hover:text-white" <==> FlairColor(customColor, variant) == "bg-black"
    ensures TextHoverColor(customColor, variant) != "group-hover:text-white" ==> TextHoverColor(customColor, variant) == "group-hover:text-black"
    ensures FlairColor(customColor, variant) == "bg-black" <==> !Truthy(customColor) && variant.Some? && variant.value != Light
    ensures FlairColor(customColor, variant) == "" <==> FlairBackground(customColor).Some?
  {
    assert "group-hover:text-black"[17] != "group-hover:text-white"[17];
  }

  /** The button's children: plain text or some other node. */
  datatype Children = Text(s: string) | Node

  /** `aria-label`: the text itself (even when empty), else a fixed description. */
  function AriaLabel(children: Children): (ariaLabel: string)
    ensures children.Text? ==> ariaLabel == children.s
    ensures children.Node? ==> ariaLabel == "Magnetic button"
  {
    match children
    case Text(s) => s
    case Node => "Magnetic button"
  }
}
