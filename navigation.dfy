/** `arrowNavigation` of the toolkit: the keydown handler that moves focus among the
    items of a list with the arrow keys, Home and End. The item list is fixed when the
    handler is bound; the current index is found by looking the focused element up in it. */
module Navigation {
  import opened Common

  /** The handler's options after the defaults are merged in. */
  datatype NavSettings = NavSettings(loop: bool, horizontal: bool)

  /** `{ loop: true, horizontal: false }`, what the dropdown and the multi-select use. */
  const Defaults := NavSettings(true, false)

  /** ArrowDown on a vertical list, ArrowRight on a horizontal one. */
  predicate IsForward(k: Key, s: NavSettings) {
    if s.horizontal then k == ArrowRight else k == ArrowDown
  }

  /** ArrowUp on a vertical list, ArrowLeft on a horizontal one. */
  predicate IsBackward(k: Key, s: NavSettings) {
    if s.horizontal then k == ArrowLeft else k == ArrowUp
  }

  /** The keys the handler acts on; every other key returns before anything happens. */
  predicate Handles(k: Key, s: NavSettings) {
    IsForward(k, s) || IsBackward(k, s) || k == Home || k == End
  }

  /** The index the handler computes for a handled key pressed on item `current`
      of `n` items: one step with wrap (loop) or clamp, or a jump to either end. */
  function NextIndex(current: nat, n: nat, k: Key, s: NavSettings): (r: nat)
    requires current < n && Handles(k, s)
    ensures r < n
    ensures IsForward(k, s) && current + 1 < n ==> r == current + 1
    ensures IsForward(k, s) && current + 1 == n ==> r == (if s.loop then 0 else current)
    ensures IsBackward(k, s) && 0 < current ==> r == current - 1
    ensures IsBackward(k, s) && current == 0 ==> r == (if s.loop then n - 1 else 0)
    ensures k == Home ==> r == 0
    ensures k == End ==> r == n - 1
  {
    if IsForward(k, s) then
      var next := current + 1;
      if next >= n then (if s.loop then 0 else current) else next
    else if IsBackward(k, s) then
      var next := current - 1;
      if next < 0 then (if s.loop then n - 1 else 0) else next
    else if k == Home then 0
    else n - 1
  }

  /** What one keydown does: whether its default action is prevented, and the item
      that receives focus (and is passed with its index to `onNavigate`), if any.
      `focused` is the index of the focused element among the items, None when it
      is not one of them. */
  datatype NavOutcome = NavOutcome(preventDefault: bool, moveTo: Option<nat>)

  function HandleKeydown(n: nat, focused: Option<nat>, k: Key, s: NavSettings): (r: NavOutcome)
    requires focused.Some? ==> focused.value < n
    ensures r.preventDefault <==> focused.Some? && Handles(k, s)
    ensures r.moveTo.Some? <==>
              focused.Some? && Handles(k, s) && NextIndex(focused.value, n, k, s) != focused.value
    ensures r.moveTo.Some? ==> r.moveTo.value < n && r.moveTo.value == NextIndex(focused.value, n, k, s)
  {
    match focused
    case None => NavOutcome(false, None)
    case Some(current) =>
      if !Handles(k, s) then NavOutcome(false, None)
      else
        var next := NextIndex(current, n, k, s);
        NavOutcome(true, if next != current then Some(next) else None)
  }

  /** With `loop`, one step forward or back is addition modulo the item count. */
  lemma LoopIsModular(current: nat, n: nat, k: Key, s: NavSettings)
    requires current < n && s.loop
    ensures IsForward(k, s) ==> NextIndex(current, n, k, s) == (current + 1) % n
    ensures IsBackward(k, s) ==> NextIndex(current, n, k, s) == (current + n - 1) % n
  {
    if current + 1 < n {
      ModBelow(current + 1, n);
    } else {
      ModWraps(current + 1, n);
    }
    if 0 < current {
      ModWraps(current + n - 1, n);
    } else {
      ModBelow(current + n - 1, n);
    }
  }

  lemma ModBelow(x: int, n: int)
    requires 0 <= x < n
    ensures x % n == x
  {
  }

  lemma ModWraps(x: int, n: int)
    requires 0 < n <= x < 2 * n
    ensures x % n == x - n
  {
    assert x == 1 * n + (x - n);
  }

  /** With `loop`, a backward step undoes a forward step and the other way round. */
  lemma LoopStepsAreInverse(current: nat, n: nat, s: NavSettings)
    requires current < n && s.loop
    ensures var fwd := if s.horizontal then ArrowRight else ArrowDown;
            var bwd := if s.horizontal then ArrowLeft else ArrowUp;
            NextIndex(NextIndex(current, n, fwd, s), n, bwd, s) == current &&
            NextIndex(NextIndex(current, n, bwd, s), n, fwd, s) == current
  {
  }

  /** The item reached after `presses` presses of key `k`, starting on `current`. */
  function Presses(current: nat, n: nat, k: Key, s: NavSettings, presses: nat): (r: nat)
    requires current < n && Handles(k, s)
    ensures r < n
    decreases presses
  {
    if presses == 0 then current
    else Presses(NextIndex(current, n, k, s), n, k, s, presses - 1)
  }

  /** Pressing `p + q` times is pressing `p` times and then `q` times. */
  lemma {:induction false} PressesAdd(current: nat, n: nat, k: Key, s: NavSettings, p: nat, q: nat)
    requires current < n && Handles(k, s)
    ensures Presses(current, n, k, s, p + q) == Presses(Presses(current, n, k, s, p), n, k, s, q)
    decreases p
  {
    if p > 0 {
      PressesAdd(NextIndex(current, n, k, s), n, k, s, p - 1, q);
    }
  }

  /** Forward presses that stay inside the list advance one item each. */
  lemma {:induction false} ForwardWithin(current: nat, n: nat, k: Key, s: NavSettings, p: nat)
    requires current + p < n && IsForward(k, s)
    ensures Presses(current, n, k, s, p) == current + p
    decreases p
  {
    if p > 0 {
      ForwardWithin(current + 1, n, k, s, p - 1);
    }
  }

  /** Without `loop`, forward presses stop on the last item. */
  lemma {:induction false} ForwardClamps(current: nat, n: nat, k: Key, s: NavSettings, p: nat)
    requires current < n && IsForward(k, s) && !s.loop
    ensures Presses(current, n, k, s, p) == if current + p < n then current + p else n - 1
    decreases p
  {
    if p > 0 {
      ForwardClamps(NextIndex(current, n, k, s), n, k, s, p - 1);
    }
  }

  /** Without `loop`, backward presses stop on the first item. */
  lemma {:induction false} BackwardClamps(current: nat, n: nat, k: Key, s: NavSettings, p: nat)
    requires current < n && IsBackward(k, s) && !s.loop
    ensures Presses(current, n, k, s, p) == if p <= current then current - p else 0
    decreases p
  {
    if p > 0 {
      BackwardClamps(NextIndex(current, n, k, s), n, k, s, p - 1);
    }
  }

  /** With `loop`, pressing the forward key once per item brings focus back to
      where it started: the list is a cycle. */
  lemma ForwardCycle(current: nat, n: nat, k: Key, s: NavSettings)
    requires current < n && IsForward(k, s) && s.loop
    ensures Presses(current, n, k, s, n) == current
  {
    var toLast := n - 1 - current;
    PressesAdd(current, n, k, s, toLast, current + 1);
    ForwardWithin(current, n, k, s, toLast);
    PressesAdd(n - 1, n, k, s, 1, current);
    ForwardWithin(0, n, k, s, current);
  }
}
