/**
 * Browse page (`app/browse/browse-grid.tsx`): the component list is shown in
 * two columns, the left one taking the larger half, and every row toggles a
 * collapsible preview. Lazy loading and animation are outside the model.
 */
module BrowseGrid {
  import ComponentsLib

  type Info = ComponentsLib.ComponentInfo

  /** `Math.ceil(n / 2)`. */
  function Midpoint(n: nat): nat {
    (n + 1) / 2
  }

  /** The midpoint is the least integer at or above n / 2. */
  lemma MidpointIsCeiling(n: nat)
    ensures Midpoint(n) as real >= n as real / 2.0
    ensures (Midpoint(n) - 1) as real < n as real / 2.0
    ensures Midpoint(n) <= n && (n > 0 ==> Midpoint(n) > 0)
  {
  }

  /** What the grid renders. */
  datatype GridView =
    | EmptyMessage
    | Columns(left: seq<Info>, right: seq<Info>)

  /** `BrowseGrid`: the empty-state message, or the two slices around the midpoint. */
  function Grid(components: seq<Info>): GridView {
    if |components| == 0 then EmptyMessage
    else
      var m := Midpoint(|components|);
      Columns(components[..m], components[m..])
  }

  /**
   * An empty list renders only the message; otherwise reading the left column
   * then the right one gives the list back in order, the left column is as
   * long as the right one or one longer, and it is never empty.
   */
  lemma GridSplit(components: seq<Info>)
    ensures Grid(components).EmptyMessage? <==> |components| == 0
    ensures Grid(components).Columns? ==>
      var v := Grid(components);
      && v.left + v.right == components
      && (|v.left| == |v.right| || |v.left| == |v.right| + 1)
      && |v.left| > 0
  {
    if |components| > 0 {
      var m := Midpoint(|components|);
      assert components[..m] + components[m..] == components;
    }
  }

  /** Every component appears in one of the two columns, and nothing else does. */
  lemma GridPartitions(components: seq<Info>, c: Info)
    requires |components| > 0
    ensures var v := Grid(components);
      c in components <==> c in v.left || c in v.right
  {
    GridSplit(components);
    var v := Grid(components);
    if c in components {
      var k :| 0 <= k < |components| && components[k] == c;
      if k < |v.left| {
        assert v.left[k] == c;
      } else {
        assert v.right[k - |v.left|] == c;
      }
    }
  }

  /** What one row shows below its header. */
  datatype RowView =
    | Collapsed
    | Expanded(previewName: string, docsHref: string)

  /** The rows of the grid: `ComponentItem`, with its `isExpanded` state. */
  class ComponentItem {
    const info: Info
    var isExpanded: bool

    /** `useState(false)`: a row starts collapsed. */
    constructor (info: Info)
      ensures this.info == info && !isExpanded
    {
      this.info := info;
      isExpanded := false;
    }

    /** The row's body: the preview of the component and a link to its docs, only when expanded. */
    function View(): (v: RowView)
      reads this
    {
      if isExpanded then Expanded(info.name, info.href) else Collapsed
    }

    /** The chevron's rotation in degrees. */
    function ChevronRotation(): (deg: nat)
      reads this
      ensures deg == 180 <==> View().Expanded?
      ensures deg == 0 <==> View().Collapsed?
    {
      if isExpanded then 180 else 0
    }

    /** The row header's `onClick`. */
    method Toggle()
      modifies this
      ensures isExpanded == !old(isExpanded)
    {
      isExpanded := !isExpanded;
    }
  }

  /** The expansion state after `k` clicks from `start`. */
  function AfterClicks(start: bool, k: nat): bool {
    if k == 0 then start else !AfterClicks(start, k - 1)
  }

  /** A row that started collapsed is open exactly after an odd number of clicks. */
  lemma {:induction false} AfterClicksParity(k: nat)
    ensures AfterClicks(false, k) <==> k % 2 == 1
  {
    if k > 0 {
      AfterClicksParity(k - 1);
    }
  }

  /** Two clicks undo each other. */
  lemma DoubleClickRestores(start: bool, k: nat)
    ensures AfterClicks(start, k + 2) == AfterClicks(start, k)
  {
  }

  /** Clicking a fresh row `k` times opens it to its docs exactly when `k` is odd. */
  method ClickRow(info: Info, k: nat) returns (v: RowView)
    ensures v.Expanded? <==> k % 2 == 1
    ensures v.Expanded? ==> v.previewName == info.name && v.docsHref == info.href
  {
    var row := new ComponentItem(info);
    var i := 0;
    while i < k
      invariant 0 <= i <= k
      invariant row.info == info
      invariant row.isExpanded == AfterClicks(false, i)
    {
      row.Toggle();
      i := i + 1;
    }
    AfterClicksParity(k);
    v := row.View();
  }
}
