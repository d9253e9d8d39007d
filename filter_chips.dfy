/**
 * Filter Chips (`registry/new-york/ui/filter-chips.tsx`): the class-name
 * combinator `cn`, the link target of each chip, how a filter given as a
 * bare string or as an object becomes a chip, which chip is active, whether
 * it renders as a link or a button, and what a click does. Styling tables
 * and animation are outside the model.
 */
module FilterChips {
  import opened Wrappers
  import opened TextUtil

  // ---------------------------------------------------------------------
  // cn
  // ---------------------------------------------------------------------

  /** The truthy entries of a `cn` argument list, in order. */
  function Kept(parts: seq<Option<string>>): (r: seq<string>)
    ensures |r| <= |parts|
    ensures forall k :: 0 <= k < |r| ==> r[k] != ""
    ensures forall s :: s in r <==> Some(s) in parts && s != ""
  {
    if |parts| == 0 then []
    else
      var rest := Kept(parts[1..]);
      assert forall x :: x in parts <==> x == parts[0] || x in parts[1..];
      if Truthy(parts[0]) then [parts[0].value] + rest else rest
  }

  /** `cn(...c)`: drop `undefined`, `null`, `false` and `""`, join the rest with single spaces. */
  function Cn(parts: seq<Option<string>>): string {
    Join(Kept(parts), " ")
  }

  lemma {:induction false} KeptAppend(a: seq<Option<string>>, b: seq<Option<string>>)
    ensures Kept(a + b) == Kept(a) + Kept(b)
  {
    if |a| > 0 {
      assert (a + b)[1..] == a[1..] + b;
      KeptAppend(a[1..], b);
    } else {
      assert a + b == b;
    }
  }

  /** Joining two non-empty lists puts one separator between their joins. */
  lemma {:induction false} JoinAppend(x: seq<string>, y: seq<string>, sep: string)
    requires |x| > 0 && |y| > 0
    ensures Join(x + y, sep) == Join(x, sep) + sep + Join(y, sep)
  {
    if |x| > 1 {
      assert (x + y)[1..] == x[1..] + y;
      JoinAppend(x[1..], y, sep);
    } else {
      assert (x + y)[1..] == y;
    }
  }

  /**
   * A nested `cn` call flattens: passing `cn(b)` as one argument gives the
   * same class string as passing the entries of `b` directly, also when they
   * are all falsy and `cn(b)` is the empty string.
   */
  lemma CnFlattens(a: seq<Option<string>>, b: seq<Option<string>>, c: seq<Option<string>>)
    ensures Cn(a + [Some(Cn(b))] + c) == Cn(a + b + c)
  {
    KeptAppend(a + [Some(Cn(b))], c);
    KeptAppend(a, [Some(Cn(b))]);
    KeptAppend(a + b, c);
    KeptAppend(a, b);
    var ka, kb, kc := Kept(a), Kept(b), Kept(c);
    if |kb| == 0 {
      assert Kept([Some(Cn(b))]) == [];
      assert ka + [] + kc == ka + kb + kc;
    } else {
      assert Cn(b) != "" by {
        if |kb| == 1 {
          assert Cn(b) == kb[0];
        } else {
          assert Cn(b) == kb[0] + " " + Join(kb[1..], " ");
        }
      }
      assert Kept([Some(Cn(b))]) == [Join(kb, " ")];
      JoinFlattens(ka, kb, kc);
    }
  }

  lemma JoinFlattens(x: seq<string>, y: seq<string>, z: seq<string>)
    requires |y| > 0
    ensures Join(x + [Join(y, " ")] + z, " ") == Join(x + y + z, " ")
  {
    var j := Join(y, " ");
    if |x| > 0 && |z| > 0 {
      JoinAppend(x, [j] + z, " ");
      assert x + [j] + z == x + ([j] + z);
      JoinAppend([j], z, " ");
      JoinAppend(x, y + z, " ");
      assert x + y + z == x + (y + z);
      JoinAppend(y, z, " ");
    } else if |x| > 0 {
      JoinAppend(x, [j], " ");
      JoinAppend(x, y, " ");
      assert x + [j] + z == x + [j];
      assert x + y + z == x + y;
    } else if |z| > 0 {
      assert x + [j] + z == [j] + z;
      assert x + y + z == y + z;
      JoinAppend([j], z, " ");
      JoinAppend(y, z, " ");
    } else {
      assert x + [j] + z == [j];
      assert x + y + z == y;
    }
  }

  /** When the kept entries have no spaces, splitting the class string gives them back. */
  lemma CnSplits(parts: seq<Option<string>>)
    requires exists k :: 0 <= k < |parts| && Truthy(parts[k])
    requires forall k :: 0 <= k < |parts| && parts[k].Some? ==> ' ' !in parts[k].value
    ensures Split(Cn(parts), ' ') == Kept(parts)
  {
    var k :| 0 <= k < |parts| && Truthy(parts[k]);
    assert parts[k].value in Kept(parts);
    forall j | 0 <= j < |Kept(parts)|
      ensures ' ' !in Kept(parts)[j]
    {
      assert Kept(parts)[j] in Kept(parts);
    }
    SplitJoin(Kept(parts), ' ');
  }

  // ---------------------------------------------------------------------
  // Chips
  // ---------------------------------------------------------------------

  /** An entry of `filters`: a bare value, or an object with optional label and disabled flag. */
  datatype FilterSpec =
    | Plain(value: string)
    | Object(value: string, labelText: Option<string>, disabled: Option<bool>)

  /** A normalised chip (its icon is left out). */
  datatype Chip = Chip(value: string, labelText: string, disabled: bool)

  /**
   * The chip normalisation in `renderChip`: a bare value is its own label; an
   * object keeps its fields and takes its value as label only when the label
   * is missing (`??`, so an empty label stays empty).
   */
  function Normalize(f: FilterSpec): (c: Chip)
    ensures c.value == f.value
    ensures f.Plain? ==> c.labelText == f.value && !c.disabled
    ensures f.Object? && f.labelText.Some? ==> c.labelText == f.labelText.value
    ensures f.Object? && f.labelText.None? ==> c.labelText == f.value
    ensures c.disabled <==> f.Object? && f.disabled == Some(true)
  {
    match f
    case Plain(v) => Chip(v, v, false)
    case Object(v, l, d) => Chip(v, Coalesce(l, v), d == Some(true))
  }

  /** The props that decide links, hrefs and clicks. */
  datatype Props = Props(
    activeFilter: string,
    hasHandler: bool,             // whether `onFilterChange` was passed
    baseHref: Option<string>,
    queryParam: Option<string>,   // default "type"
    allValue: Option<string>,
    asLinks: Option<bool>)        // default false

  function QueryParam(p: Props): string {
    Coalesce(p.queryParam, "type")
  }

  /** A missing `queryParam` defaults to "type"; a given one, even empty, is kept. */
  lemma QueryParamDefault(p: Props)
    ensures p.queryParam.None? ==> QueryParam(p) == "type"
    ensures p.queryParam.Some? ==> QueryParam(p) == p.queryParam.value
  {
  }

  /** `asLinks && baseHref`: chips are anchors only with both. */
  predicate LinksOn(p: Props) {
    Coalesce(p.asLinks, false) && Truthy(p.baseHref)
  }

  /** `getHref`. */
  function GetHref(baseHref: Option<string>, allValue: Option<string>, queryParam: string, val: string): string {
    if !Truthy(baseHref) then "#"
    else if allValue == Some(val) then baseHref.value
    else baseHref.value + "?" + queryParam + "=" + val
  }

  /**
   * The href reads back: with no base it is "#", for the all-value it is the
   * base itself, and otherwise, for a base without '?' and a parameter name
   * without '=', the text before the first '?' is the base, the parameter
   * name runs up to the first '=' after it, and the rest is the value,
   * unencoded.
   */
  lemma HrefReadsBack(baseHref: Option<string>, allValue: Option<string>, queryParam: string, val: string)
    ensures !Truthy(baseHref) ==> GetHref(baseHref, allValue, queryParam, val) == "#"
    ensures Truthy(baseHref) && allValue == Some(val) ==> GetHref(baseHref, allValue, queryParam, val) == baseHref.value
    ensures Truthy(baseHref) && allValue != Some(val) && '?' !in baseHref.value && '=' !in queryParam ==>
      var href := GetHref(baseHref, allValue, queryParam, val);
      '?' in href && var i := IndexOf(href, '?');
      i == |baseHref.value| && href[..i] == baseHref.value
      && var query := href[i + 1..];
      '=' in query && IndexOf(query, '=') == |queryParam|
      && query[..|queryParam|] == queryParam && query[|queryParam| + 1..] == val
  {
    if Truthy(baseHref) && allValue != Some(val) && '?' !in baseHref.value && '=' !in queryParam {
      var b := baseHref.value;
      var href := GetHref(baseHref, allValue, queryParam, val);
      assert href[|b|] == '?';
      assert href[..|b|] == b;
      var i := IndexOf(href, '?');
      assert i == |b|;
      var query := href[i + 1..];
      assert query == queryParam + "=" + val;
      assert query[|queryParam|] == '=';
      assert query[..|queryParam|] == queryParam;
      assert IndexOf(query, '=') == |queryParam|;
    }
  }

  /** Distinct values other than the all-value link to distinct hrefs when there is a base. */
  lemma HrefInjective(baseHref: Option<string>, allValue: Option<string>, queryParam: string, v1: string, v2: string)
    requires Truthy(baseHref) && allValue != Some(v1) && allValue != Some(v2) && v1 != v2
    ensures GetHref(baseHref, allValue, queryParam, v1) != GetHref(baseHref, allValue, queryParam, v2)
  {
    var pre := baseHref.value + "?" + queryParam + "=";
    var h1 := GetHref(baseHref, allValue, queryParam, v1);
    var h2 := GetHref(baseHref, allValue, queryParam, v2);
    assert h1 == pre + v1 && h2 == pre + v2;
    assert h1[|pre|..] == v1;
    assert h2[|pre|..] == v2;
  }

  /** What a click on a chip does: whether the default action is prevented, and who is told. */
  datatype ClickOutcome = ClickOutcome(preventDefault: bool, notified: Option<string>)

  /** The chip's `onClick`: nothing for a disabled chip, otherwise `handleClick(value)`. */
  function Click(p: Props, c: Chip): ClickOutcome {
    if c.disabled then ClickOutcome(false, None)
    else ClickOutcome(!LinksOn(p), if p.hasHandler then Some(c.value) else None)
  }

  datatype Element = Anchor(href: string) | Button

  /** What `renderChip` decides for one filter. */
  datatype ChipView = ChipView(element: Element, labelText: string, pressed: bool, click: ClickOutcome)

  function RenderChip(p: Props, f: FilterSpec): ChipView {
    var c := Normalize(f);
    var active := c.value == p.activeFilter;
    var element := if LinksOn(p) then Anchor(GetHref(p.baseHref, p.allValue, QueryParam(p), c.value)) else Button;
    ChipView(element, c.labelText, active, Click(p, c))
  }

  /**
   * The rules of one rendered chip: it is pressed iff its value is the active
   * filter; it is an anchor iff `asLinks` and a non-empty base are given, with
   * the href of its value; a disabled chip ignores clicks; an enabled one
   * reports its value to the handler and prevents the default action exactly
   * when it is a button, so anchors still navigate.
   */
  lemma RenderChipRules(p: Props, f: FilterSpec)
    ensures var v := RenderChip(p, f);
      && (v.pressed <==> f.value == p.activeFilter)
      && (v.element.Anchor? <==> Coalesce(p.asLinks, false) && Truthy(p.baseHref))
      && (v.element.Anchor? ==> v.element.href == GetHref(p.baseHref, p.allValue, QueryParam(p), f.value))
      && (Normalize(f).disabled ==> v.click == ClickOutcome(false, None))
      && (!Normalize(f).disabled ==>
            (v.click.preventDefault <==> v.element.Button?)
            && (v.click.notified.Some? <==> p.hasHandler)
            && (p.hasHandler ==> v.click.notified == Some(f.value)))
  {
  }

  /** With pairwise distinct values, at most one chip is pressed. */
  lemma AtMostOneActive(p: Props, filters: seq<FilterSpec>, i: nat, j: nat)
    requires forall a, b :: 0 <= a < b < |filters| ==> filters[a].value != filters[b].value
    requires i < |filters| && j < |filters|
    requires RenderChip(p, filters[i]).pressed && RenderChip(p, filters[j]).pressed
    ensures i == j
  {
    assert filters[i].value == p.activeFilter == filters[j].value;
  }
}
