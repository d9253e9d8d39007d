/**
 * Adaptive Tooltip: the intent state machine behind a row of icon buttons.
 *
 * State is the active item, a confidence level that grows with each hover
 * and decays after a pause, and a keyboard "pinned" flag. The two timers of
 * the component (the intent timer that opens the tooltip after a delay and
 * the decay timer that resets confidence) are modelled as events that may
 * arrive in any order; real time is not modelled. Between two events the
 * component is taken to have re-rendered, so every handler sees the current
 * state.
 */
module AdaptiveTooltip {
  import opened Wrappers

  /** Confidence gained per hover, and its ceiling. */
  const ConfidenceStep: real := 0.3
  const MaxConfidence: real := 1.0

  /** `intentDelay` in milliseconds, as passed to `setTimeout` (which treats negatives as 0). */
  function IntentDelay(confidence: real): real {
    var d := 100.0 - confidence * 70.0;
    if d > 0.0 then d else 0.0
  }

  /** A confident user waits less: the delay lies in [30, 100] and falls as confidence rises. */
  lemma IntentDelayRange(c1: real, c2: real)
    requires 0.0 <= c1 <= c2 <= MaxConfidence
    ensures 30.0 <= IntentDelay(c2) <= IntentDelay(c1) <= 100.0
    ensures IntentDelay(0.0) == 100.0 && IntentDelay(MaxConfidence) == 30.0
  {
  }

  /** `Math.min(c + 0.3, 1)`. */
  function Bump(c: real): real {
    if c + ConfidenceStep < MaxConfidence then c + ConfidenceStep else MaxConfidence
  }

  /** A scheduled intent timer: which item it opens and after how long. */
  datatype Intent = Intent(index: nat, delay: real)

  datatype TooltipState = TooltipState(
    activeIndex: Option<nat>,
    confidence: real,
    pinned: bool,
    intent: Option<Intent>,   // the pending intent timer, if any
    decayArmed: bool)         // whether a decay timer is pending

  datatype Event =
    | Enter(index: nat)                // mouse enters button `index`
    | Leave                            // mouse leaves a button
    | IntentFires                      // the pending intent timer fires
    | DecayFires                       // the pending decay timer fires
    | KeyDown(meta: bool, shift: bool) // a key goes down with these modifiers
    | KeyUp                            // a key goes up

  const Initial: TooltipState := TooltipState(None, 0.0, false, None, false)

  /** The effect of one event on the state. */
  function Next(s: TooltipState, e: Event, enablePinning: bool): TooltipState {
    match e
    case Enter(i) =>
      // the timer closes over the delay computed from the confidence before this hover
      s.(confidence := Bump(s.confidence),
         intent := Some(Intent(i, IntentDelay(s.confidence))),
         decayArmed := true)
    case Leave =>
      s.(intent := None, activeIndex := if s.pinned then s.activeIndex else None)
    case IntentFires =>
      if s.intent.Some? then s.(activeIndex := Some(s.intent.value.index), intent := None) else s
    case DecayFires =>
      if s.decayArmed then s.(confidence := 0.0, decayArmed := false) else s
    case KeyDown(meta, shift) =>
      if enablePinning && (meta || shift) then s.(pinned := true) else s
    case KeyUp =>
      if enablePinning then s.(pinned := false) else s
  }

  /** The state after a sequence of events. */
  function Run(s: TooltipState, es: seq<Event>, enablePinning: bool): TooltipState
    decreases |es|
  {
    if |es| == 0 then s else Run(Next(s, es[0], enablePinning), es[1..], enablePinning)
  }

  /** Buttons exist only for items, so hovers name valid item indices. */
  predicate EventOk(e: Event, itemCount: nat) {
    e.Enter? ==> e.index < itemCount
  }

  /** What every reachable state satisfies. */
  ghost predicate Inv(s: TooltipState, itemCount: nat, enablePinning: bool) {
    && 0.0 <= s.confidence <= MaxConfidence
    && (s.activeIndex.Some? ==> s.activeIndex.value < itemCount)
    && (s.intent.Some? ==> s.intent.value.index < itemCount && 30.0 <= s.intent.value.delay <= 100.0)
    && (!enablePinning ==> !s.pinned)
  }

  lemma InitialInv(itemCount: nat, enablePinning: bool)
    ensures Inv(Initial, itemCount, enablePinning)
  {
  }

  /**
   * Each event keeps confidence in [0, 1], the active index and the pending
   * index inside `items`, the scheduled delay in [30, 100], and `pinned`
   * false when pinning is disabled.
   */
  lemma NextPreservesInv(s: TooltipState, e: Event, itemCount: nat, enablePinning: bool)
    requires Inv(s, itemCount, enablePinning) && EventOk(e, itemCount)
    ensures Inv(Next(s, e, enablePinning), itemCount, enablePinning)
  {
    if e.Enter? {
      IntentDelayRange(s.confidence, s.confidence);
    }
  }

  lemma {:induction false} RunPreservesInv(s: TooltipState, es: seq<Event>, itemCount: nat, enablePinning: bool)
    requires Inv(s, itemCount, enablePinning)
    requires forall k :: 0 <= k < |es| ==> EventOk(es[k], itemCount)
    ensures Inv(Run(s, es, enablePinning), itemCount, enablePinning)
    decreases |es|
  {
    if |es| > 0 {
      NextPreservesInv(s, es[0], itemCount, enablePinning);
      RunPreservesInv(Next(s, es[0], enablePinning), es[1..], itemCount, enablePinning);
    }
  }

  /** From the initial state, every reachable state satisfies the invariant. */
  lemma ReachableInv(es: seq<Event>, itemCount: nat, enablePinning: bool)
    requires forall k :: 0 <= k < |es| ==> EventOk(es[k], itemCount)
    ensures Inv(Run(Initial, es, enablePinning), itemCount, enablePinning)
  {
    RunPreservesInv(Initial, es, itemCount, enablePinning);
  }

  function Min(a: real, b: real): real {
    if a < b then a else b
  }

  predicate AllEnters(es: seq<Event>) {
    forall k :: 0 <= k < |es| ==> es[k].Enter?
  }

  /** Without a decay in between, `k` hovers raise confidence to min(c + 0.3k, 1). */
  lemma {:induction false} ConfidenceAfterEnters(s: TooltipState, es: seq<Event>, enablePinning: bool)
    requires 0.0 <= s.confidence <= MaxConfidence
    requires AllEnters(es)
    ensures Run(s, es, enablePinning).confidence
         == Min(s.confidence + ConfidenceStep * |es| as real, MaxConfidence)
    decreases |es|
  {
    if |es| > 0 {
      var t := Next(s, es[0], enablePinning);
      assert AllEnters(es[1..]);
      ConfidenceAfterEnters(t, es[1..], enablePinning);
    }
  }

  /**
   * The delay an enter schedules comes from the confidence before that
   * enter's increment: the first hover waits 100 ms, the second 79 ms.
   */
  lemma DelayUsesPriorConfidence(i: nat, j: nat, enablePinning: bool)
    ensures Run(Initial, [Enter(i)], enablePinning).intent == Some(Intent(i, 100.0))
    ensures Run(Initial, [Enter(i), Enter(j)], enablePinning).intent == Some(Intent(j, 79.0))
  {
    var s1 := Next(Initial, Enter(i), enablePinning);
    assert s1.confidence == 0.3;
    assert [Enter(i), Enter(j)][1..] == [Enter(j)];
    assert Run(Initial, [Enter(i), Enter(j)], enablePinning) == Run(s1, [Enter(j)], enablePinning);
    assert Run(s1, [Enter(j)], enablePinning) == Run(Next(s1, Enter(j), enablePinning), [], enablePinning);
    assert IntentDelay(0.3) == 79.0;
  }

  predicate NoEnter(es: seq<Event>) {
    forall k :: 0 <= k < |es| ==> !es[k].Enter?
  }

  /**
   * Only the most recent hover can open the tooltip: after `Enter(i)`, as long
   * as no other hover arrives, the active index is either what it was before
   * the hover, none, or `i`.
   */
  lemma {:induction false} LatestEnterWins(s: TooltipState, i: nat, es: seq<Event>, enablePinning: bool)
    requires NoEnter(es)
    ensures var a := Run(Next(s, Enter(i), enablePinning), es, enablePinning).activeIndex;
      a == s.activeIndex || a == None || a == Some(i)
  {
    LatestEnterWinsFrom(Next(s, Enter(i), enablePinning), s.activeIndex, i, es, enablePinning);
  }

  lemma {:induction false} LatestEnterWinsFrom(t: TooltipState, a0: Option<nat>, i: nat, es: seq<Event>, enablePinning: bool)
    requires NoEnter(es)
    requires t.intent.Some? ==> t.intent.value.index == i
    requires t.activeIndex == a0 || t.activeIndex == None || t.activeIndex == Some(i)
    ensures var a := Run(t, es, enablePinning).activeIndex;
      a == a0 || a == None || a == Some(i)
    decreases |es|
  {
    if |es| > 0 {
      assert !es[0].Enter?;
      assert NoEnter(es[1..]);
      LatestEnterWinsFrom(Next(t, es[0], enablePinning), a0, i, es[1..], enablePinning);
    }
  }

  /** Leave cancels the pending intent, so a timer firing afterwards opens nothing. */
  lemma LeaveCancelsIntent(s: TooltipState, enablePinning: bool)
    ensures Next(s, Leave, enablePinning).intent == None
    ensures Run(s, [Leave, IntentFires], enablePinning) == Next(s, Leave, enablePinning)
    ensures s.pinned ==> Next(s, Leave, enablePinning).activeIndex == s.activeIndex
    ensures !s.pinned ==> Next(s, Leave, enablePinning).activeIndex == None
  {
    assert [Leave, IntentFires][1..] == [IntentFires];
  }

  /** When the decay timer fires, confidence resets to 0 and nothing else changes; each hover re-arms it. */
  lemma DecayResetsConfidence(s: TooltipState, i: nat, enablePinning: bool)
    requires s.decayArmed
    ensures var t := Next(s, DecayFires, enablePinning);
      t.confidence == 0.0 && t.activeIndex == s.activeIndex && t.pinned == s.pinned && t.intent == s.intent
    ensures Next(Next(s, DecayFires, enablePinning), Enter(i), enablePinning).decayArmed
  {
  }

  /** Meta or shift pins, any key release unpins, and with pinning disabled keys do nothing. */
  lemma KeyboardPinning(s: TooltipState, meta: bool, shift: bool, enablePinning: bool)
    ensures enablePinning && (meta || shift) ==> Next(s, KeyDown(meta, shift), enablePinning).pinned
    ensures enablePinning ==> !Next(s, KeyUp, enablePinning).pinned
    ensures !enablePinning ==> Next(s, KeyDown(meta, shift), enablePinning) == s && Next(s, KeyUp, enablePinning) == s
  {
  }

  /** The tooltip: shown iff an item is active, labelled with that item's label. */
  function TooltipLabel(s: TooltipState, labels: seq<string>): (r: Option<string>)
    requires s.activeIndex.Some? ==> s.activeIndex.value < |labels|
    ensures r.Some? <==> s.activeIndex.Some?
    ensures r.Some? ==> r.value == labels[s.activeIndex.value]
  {
    match s.activeIndex
    case None => None
    case Some(k) => Some(labels[k])
  }

  /** In every reachable state the label lookup is in range. */
  lemma ReachableLabelDefined(es: seq<Event>, labels: seq<string>, enablePinning: bool)
    requires forall k :: 0 <= k < |es| ==> EventOk(es[k], |labels|)
    ensures var s := Run(Initial, es, enablePinning);
      s.activeIndex.Some? ==> s.activeIndex.value < |labels|
  {
    ReachableInv(es, |labels|, enablePinning);
  }

  /**
   * The component's state, updated in place by its handlers. `intent` and
   * `decayArmed` stand for the two timeout refs.
   */
  class Tooltip {
    const itemCount: nat
    const enablePinning: bool
    var activeIndex: Option<nat>
    var confidence: real
    var pinned: bool
    var intent: Option<Intent>
    var decayArmed: bool

    function State(): TooltipState
      reads this
    {
      TooltipState(activeIndex, confidence, pinned, intent, decayArmed)
    }

    ghost predicate Valid()
      reads this
    {
      Inv(State(), itemCount, enablePinning)
    }

    constructor (itemCount: nat, enablePinning: bool)
      ensures Valid() && State() == Initial
      ensures this.itemCount == itemCount && this.enablePinning == enablePinning
    {
      this.itemCount := itemCount;
      this.enablePinning := enablePinning;
      activeIndex := None;
      confidence := 0.0;
      pinned := false;
      intent := None;
      decayArmed := false;
    }

    /** `handleEnter(index)`: raise confidence, (re)schedule the intent and decay timers. */
    method HandleEnter(index: nat)
      requires Valid() && index < itemCount
      modifies this
      ensures Valid() && State() == Next(old(State()), Enter(index), enablePinning)
    {
      var delay := IntentDelay(confidence);
      confidence := Bump(confidence);
      intent := Some(Intent(index, delay));
      decayArmed := true;
      NextPreservesInv(old(State()), Enter(index), itemCount, enablePinning);
    }

    /** `handleLeave`: cancel the intent timer; close the tooltip unless pinned. */
    method HandleLeave()
      requires Valid()
      modifies this
      ensures Valid() && State() == Next(old(State()), Leave, enablePinning)
    {
      intent := None;
      if !pinned {
        activeIndex := None;
      }
    }

    /** The intent timer's callback: `setActiveIndex(index)`. */
    method IntentTimerFires()
      requires Valid()
      modifies this
      ensures Valid() && State() == Next(old(State()), IntentFires, enablePinning)
    {
      if intent.Some? {
        activeIndex := Some(intent.value.index);
        intent := None;
      }
    }

    /** The decay timer's callback: `setConfidence(0)`. */
    method DecayTimerFires()
      requires Valid()
      modifies this
      ensures Valid() && State() == Next(old(State()), DecayFires, enablePinning)
    {
      if decayArmed {
        confidence := 0.0;
        decayArmed := false;
      }
    }

    /** The window `keydown` listener, attached only when pinning is enabled. */
    method OnKeyDown(meta: bool, shift: bool)
      requires Valid()
      modifies this
      ensures Valid() && State() == Next(old(State()), KeyDown(meta, shift), enablePinning)
    {
      if enablePinning && (meta || shift) {
        pinned := true;
      }
    }

    /** The window `keyup` listener, attached only when pinning is enabled. */
    method OnKeyUp()
      requires Valid()
      modifies this
      ensures Valid() && State() == Next(old(State()), KeyUp, enablePinning)
    {
      if enablePinning {
        pinned := false;
      }
    }
  }
}
