/** `trapFocus(container)`: keeps Tab and Shift+Tab inside a container. The list of
    focusable elements (links with href, enabled form controls, elements whose
    tabindex is not -1) is computed once, in document order, when the trap is bound;
    elements are identified by their index in that list. */
module FocusTrap {
  import opened Common

  /** Where the focused element is when a key is pressed. */
  datatype Active =
    | Outside           // not inside the container
    | At(i: nat)        // the i-th focusable element of the container
    | InsideOther       // inside the container, but not one of the listed elements

  /** Binding the trap over `n` focusable elements: nothing is bound and nothing is
      returned when there are none; otherwise the first element receives focus. */
  function Bind(n: nat): (r: Option<nat>)
    ensures r.None? <==> n == 0
    ensures r.Some? ==> r.value == 0
  {
    if n == 0 then None else Some(0)
  }

  /** What the trap's capture-phase keydown handler does: whether the browser's own
      focus move is prevented, and which element it focuses instead. */
  datatype TrapOutcome = TrapOutcome(preventDefault: bool, focusTo: Option<nat>)

  function HandleKeydown(n: nat, active: Active, k: Key, shift: bool): (r: TrapOutcome)
    requires n > 0
    requires active.At? ==> active.i < n
    ensures r.preventDefault <==> r.focusTo.Some?
    ensures r.focusTo.Some? ==> r.focusTo.value < n
    ensures k != Tab ==> r.focusTo.None?
    ensures k == Tab && active.Outside? ==> r.focusTo == Some(0)
    ensures k == Tab && active == At(0) && shift ==> r.focusTo == Some(n - 1)
    ensures k == Tab && active == At(n - 1) && !shift ==> r.focusTo == Some(0)
    ensures k == Tab && active.InsideOther? ==> r.focusTo.None?
    ensures k == Tab && active.At? && 0 < active.i && shift ==> r.focusTo.None?
    ensures k == Tab && active.At? && active.i < n - 1 && !shift ==> r.focusTo.None?
  {
    if k != Tab then TrapOutcome(false, None)
    else match active
      case Outside => TrapOutcome(true, Some(0))
      case InsideOther => TrapOutcome(false, None)
      case At(i) =>
        if shift && i == 0 then TrapOutcome(true, Some(n - 1))
        else if !shift && i == n - 1 then TrapOutcome(true, Some(0))
        else TrapOutcome(false, None)
  }

  /** The browser's own Tab move from the i-th element when it is not prevented: the
      next (or, with Shift, previous) element of the list, None when that leaves the
      container. This takes the browser's tab order over the container to be the list's
      document order with every listed element focusable; a hidden element or a positive
      `tabindex` breaks that, and the trap does not guard against it. */
  function BrowserTab(n: nat, i: nat, shift: bool): (r: Option<nat>)
    requires i < n
  {
    if shift then (if i > 0 then Some(i - 1) else None)
    else (if i + 1 < n then Some(i + 1) else None)
  }

  /** Where focus ends up after Tab or Shift+Tab on the i-th element: the trap's
      choice if it intervenes, the browser's otherwise. */
  function AfterTab(n: nat, i: nat, shift: bool): Option<nat>
    requires i < n
  {
    var out := HandleKeydown(n, At(i), Tab, shift);
    if out.focusTo.Some? then out.focusTo else BrowserTab(n, i, shift)
  }

  /** With the trap bound, Tab and Shift+Tab never leave the container: they move
      cyclically through its focusable elements. */
  lemma TabCycles(n: nat, i: nat, shift: bool)
    requires i < n
    ensures AfterTab(n, i, shift).Some?
    ensures !shift ==> AfterTab(n, i, shift).value == if i + 1 < n then i + 1 else 0
    ensures shift ==> AfterTab(n, i, shift).value == if 0 < i then i - 1 else n - 1
  {
  }
}
