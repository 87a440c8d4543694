/** `toggleExpandable(trigger, target, options)`: a trigger/target pair that opens and
    closes. The open state is read from the trigger's active class; each toggle flips
    the trigger's active class and the target's expanded class independently, writes
    `aria-expanded` on the trigger, and runs `onExpand` or `onCollapse`. */
module Expandable {
  import opened Common

  /** The DOM state the controller drives: the trigger's active class, the target's
      expanded class (`show` by default) and the trigger's `aria-expanded`, None while
      the attribute has not been written. */
  datatype Disclosure = Disclosure(triggerActive: bool, targetExpanded: bool, ariaExpanded: Option<bool>)

  /** The pair is in step: both classes and `aria-expanded` say the same thing. */
  predicate InStep(d: Disclosure) {
    d.triggerActive == d.targetExpanded && d.ariaExpanded == Some(d.targetExpanded)
  }

  /** Which of the two callbacks a toggle ran. */
  datatype Notify = Silent | Expanded | Collapsed

  /** The state after `toggle()`. */
  function Toggled(d: Disclosure): Disclosure
  {
    Disclosure(!d.triggerActive, !d.targetExpanded, Some(!d.triggerActive))
  }

  /** The callback `toggle()` runs for the new state, given which callbacks were
      supplied: at most one, and only the one for the state entered. */
  function Notification(newState: bool, hasOnExpand: bool, hasOnCollapse: bool): (r: Notify)
    ensures r == Expanded <==> newState && hasOnExpand
    ensures r == Collapsed <==> !newState && hasOnCollapse
  {
    if newState && hasOnExpand then Expanded
    else if !newState && hasOnCollapse then Collapsed
    else Silent
  }

  /** A toggle keeps an in-step pair in step, opens a closed one and closes an open one. */
  lemma ToggledInStep(d: Disclosure)
    requires InStep(d)
    ensures InStep(Toggled(d))
    ensures Toggled(d).targetExpanded == !d.targetExpanded
  {
  }

  /** A pair whose classes disagree is never brought back in step by toggling: the
      two classes flip independently, the state is read from the trigger alone. */
  lemma ToggledKeepsMismatch(d: Disclosure)
    requires d.triggerActive != d.targetExpanded
    ensures Toggled(d).triggerActive != Toggled(d).targetExpanded
    ensures Toggled(d).ariaExpanded == Some(Toggled(d).triggerActive)
  {
  }

  /** Two toggles restore both classes; `aria-expanded` then agrees with the trigger. */
  lemma ToggledTwice(d: Disclosure)
    ensures Toggled(Toggled(d)) == d.(ariaExpanded := Some(d.triggerActive))
  {
  }

  /** What the trigger's keydown handler does with a key, given whether the trigger is
      active: Enter and Space toggle, ArrowDown opens a closed pair and schedules
      focus on the target's first `tabindex="0"` element; other keys do nothing. */
  datatype KeyAction = KeyAction(preventDefault: bool, toggles: bool, focusFirstLater: bool)

  function KeydownAction(k: Key, active: bool): (r: KeyAction)
    ensures r.toggles <==> IsActivation(k) || (k == ArrowDown && !active)
    ensures r.preventDefault == r.toggles
    ensures r.focusFirstLater <==> k == ArrowDown && !active
  {
    if IsActivation(k) then KeyAction(true, true, false)
    else if k == ArrowDown && !active then KeyAction(true, true, true)
    else KeyAction(false, false, false)
  }

  /** One bound controller. `onExpand`/`onCollapse` record whether the caller supplied
      those callbacks; the caller applies their effects on the returned `Notify`. */
  class Expandable {
    var triggerActive: bool
    var targetExpanded: bool
    var ariaExpanded: Option<bool>
    const onExpand: bool
    const onCollapse: bool

    function View(): Disclosure
      reads this
    {
      Disclosure(triggerActive, targetExpanded, ariaExpanded)
    }

    constructor (d: Disclosure, onExpand: bool, onCollapse: bool)
      ensures View() == d && this.onExpand == onExpand && this.onCollapse == onCollapse
    {
      triggerActive, targetExpanded, ariaExpanded := d.triggerActive, d.targetExpanded, d.ariaExpanded;
      this.onExpand, this.onCollapse := onExpand, onCollapse;
    }

    /** `toggle()`: returns the new state and reports the callback it ran. */
    method Toggle() returns (newState: bool, fired: Notify)
      modifies this
      ensures newState == !old(triggerActive)
      ensures View() == Toggled(old(View()))
      ensures fired == Notification(newState, onExpand, onCollapse)
    {
      var isExpanded := triggerActive;
      triggerActive := !triggerActive;
      targetExpanded := !targetExpanded;
      newState := !isExpanded;
      ariaExpanded := Some(newState);
      if newState && onExpand {
        fired := Expanded;
      } else if !newState && onCollapse {
        fired := Collapsed;
      } else {
        fired := Silent;
      }
    }

    /** The trigger's click handler; clicks that start inside a tag's remove control
        (`.select__tag-remove`) are ignored. */
    method Click(onRemoveControl: bool) returns (fired: Notify)
      modifies this
      ensures onRemoveControl ==> View() == old(View()) && fired == Silent
      ensures !onRemoveControl ==> View() == Toggled(old(View()))
      ensures !onRemoveControl ==> fired == Notification(!old(triggerActive), onExpand, onCollapse)
    {
      if onRemoveControl {
        fired := Silent;
        return;
      }
      var _, f := Toggle();
      fired := f;
    }

    /** The trigger's keydown handler. */
    method Keydown(k: Key) returns (act: KeyAction, fired: Notify)
      modifies this
      ensures act == KeydownAction(k, old(triggerActive))
      ensures act.toggles ==> View() == Toggled(old(View()))
      ensures act.toggles ==> fired == Notification(!old(triggerActive), onExpand, onCollapse)
      ensures !act.toggles ==> View() == old(View()) && fired == Silent
      ensures act.focusFirstLater ==> triggerActive && targetExpanded != old(targetExpanded)
    {
      act := KeydownAction(k, triggerActive);
      fired := Silent;
      if act.toggles {
        var _, f := Toggle();
        fired := f;
      }
    }
  }
}
