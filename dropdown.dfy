/** `initDropdown(container)`: a single-select dropdown made of a `.dropdown__button`
    and a `.dropdown__list` of `.dropdown__item`s. It composes `toggleExpandable` on
    button and list, `arrowNavigation` on the list, an Escape handler on the list, a
    focus-out handler on the container, and a click and a keydown handler per item.

    The state is described first as a value (`State`) with one transition function per
    event (`Step`); the class `Dropdown` at the end holds the same state in fields and
    its methods, one per DOM event, are proved to perform exactly those transitions. */
module Dropdown {
  import opened Common
  import Navigation
  import Expandable

  /** One `.dropdown__item`: the text of its `.dropdown__item-text` child (None when the
      child is missing), its `selected` class, its `aria-selected` (None while
      unwritten), its `tabindex`, and its `.dropdown__count` badge's `active` class
      (None when the item has no badge). */
  datatype Item = Item(text: Option<string>, selected: bool, ariaSelected: Option<bool>,
                       tabindex: int, badge: Option<bool>)

  /** Where keyboard focus is: outside the container, on the button, or on an item. */
  datatype Focus = Elsewhere | Button | OnItem(i: nat)

  /** Everything the handlers read or write. `ctl` is the button's `active` class, the
      list's `show` class and the button's `aria-expanded`; `buttonText` is the text of the
      button's `.dropdown__text` (None when it has none); `focusChecks` counts the
      focus-out timers still to fire and `openFocusTimers` the timers set by ArrowDown
      on the closed button. */
  datatype State = State(ctl: Expandable.Disclosure, items: seq<Item>, buttonText: Option<string>,
                         focus: Focus, focusChecks: nat, openFocusTimers: nat)

  predicate WellFormed(s: State) {
    s.focus.OnItem? ==> s.focus.i < |s.items|
  }

  /** Every item carries `tabindex` t. */
  predicate AllTabindex(items: seq<Item>, t: int) {
    forall j :: 0 <= j < |items| ==> items[j].tabindex == t
  }

  /** The result of `items.forEach(item => item.setAttribute('tabindex', t))`. */
  function WithTabindex(items: seq<Item>, t: int): (r: seq<Item>)
    ensures |r| == |items| && AllTabindex(r, t)
    ensures forall j :: 0 <= j < |r| ==> r[j] == items[j].(tabindex := t)
  {
    seq(|items|, j requires 0 <= j < |items| => items[j].(tabindex := t))
  }

  /** Closed: no `active`, no `show`, `aria-expanded="false"`, every item out of the tab order. */
  predicate Closed(s: State) {
    s.ctl == Expandable.Disclosure(false, false, Some(false)) && AllTabindex(s.items, -1)
  }

  /** Open: `active`, `show`, `aria-expanded="true"`, every item in the tab order. */
  predicate Opened(s: State) {
    s.ctl == Expandable.Disclosure(true, true, Some(true)) && AllTabindex(s.items, 0)
  }

  /** `aria-expanded`, the button's and the list's classes and the items' tabindex agree. */
  predicate InStep(s: State) {
    Closed(s) || Opened(s)
  }

  function Tabindexes(items: seq<Item>): (r: seq<int>)
    ensures |r| == |items| && forall j :: 0 <= j < |r| ==> r[j] == items[j].tabindex
  {
    seq(|items|, j requires 0 <= j < |items| => items[j].tabindex)
  }

  /** An item with `selected`, `aria-selected` and its badge's `active` set to `on`. */
  function Marked(it: Item, on: bool): Item {
    it.(selected := on, ariaSelected := Some(on), badge := if it.badge.Some? then Some(on) else None)
  }

  /** The items after item i is clicked: every sibling cleared, item i marked. */
  function SelectOnly(items: seq<Item>, i: nat): (r: seq<Item>)
    requires i < |items|
    ensures |r| == |items|
    ensures forall j :: 0 <= j < |r| ==> r[j] == Marked(items[j], j == i)
  {
    seq(|items|, j requires 0 <= j < |items| => Marked(items[j], j == i))
  }

  /** The state after initialisation over the markup's items, button text and classes:
      every item gets `tabindex="-1"` and the button `aria-expanded="false"`. */
  function Init(markup: seq<Item>, buttonText: Option<string>, active: bool, show: bool): (s: State)
    ensures WellFormed(s) && s.items == WithTabindex(markup, -1) && s.buttonText == buttonText
    ensures s.focus == Elsewhere && s.focusChecks == 0 && s.openFocusTimers == 0
  {
    State(Expandable.Disclosure(active, show, Some(false)), WithTabindex(markup, -1), buttonText, Elsewhere, 0, 0)
  }

  /** `el.focus()`: when focus leaves an element inside the container, the container's
      `focusout` handler schedules one focus-out check. */
  function FocusTo(s: State, f: Focus): (r: State)
    ensures r.focus == f && r.ctl == s.ctl && r.items == s.items && r.buttonText == s.buttonText
    ensures r.openFocusTimers == s.openFocusTimers
    ensures r.focusChecks == s.focusChecks + (if s.focus != f && !s.focus.Elsewhere? then 1 else 0)
  {
    var leaves := s.focus != f && !s.focus.Elsewhere?;
    s.(focus := f, focusChecks := if leaves then s.focusChecks + 1 else s.focusChecks)
  }

  /** The close sequence shared by Escape, focus-out and item selection. */
  function Close(s: State): (r: State)
    ensures Closed(r)
    ensures r.items == WithTabindex(s.items, -1) && r.buttonText == s.buttonText && r.focus == s.focus
    ensures r.focusChecks == s.focusChecks && r.openFocusTimers == s.openFocusTimers
  {
    s.(ctl := Expandable.Disclosure(false, false, Some(false)), items := WithTabindex(s.items, -1))
  }

  /** `toggle()` with the dropdown's callbacks: `onExpand` puts every item in the tab
      order, `onCollapse` takes every item out. */
  function Toggle(s: State): State {
    var d := Expandable.Toggled(s.ctl);
    s.(ctl := d, items := WithTabindex(s.items, if d.triggerActive then 0 else -1))
  }

  /** The click handler of item i. Reading the text of an item without a
      `.dropdown__item-text` child throws, and nothing after the marking runs. */
  function Select(s: State, i: nat): (r: State)
    requires i < |s.items|
  {
    var s1 := s.(items := SelectOnly(s.items, i));
    match s.items[i].text
    case None => s1
    case Some(t) => Close(s1.(buttonText := if s.buttonText.Some? then Some(t) else None))
  }

  /** A keydown, delivered to the focused element and bubbling from an item to the list. */
  function Keydown(s: State, k: Key): State
    requires WellFormed(s)
  {
    match s.focus
    case Elsewhere => s
    case Button =>
      var act := Expandable.KeydownAction(k, s.ctl.triggerActive);
      if !act.toggles then s
      else
        var s1 := Toggle(s);
        if act.focusFirstLater then s1.(openFocusTimers := s1.openFocusTimers + 1) else s1
    case OnItem(i) =>
      if IsActivation(k) then
        // the item's own handler: `this.click()`, then focus to the button; the list's
        // handlers then find the button focused and an unhandled key
        FocusTo(Select(s, i), Button)
      else
        var out := Navigation.HandleKeydown(|s.items|, Some(i), k, Navigation.Defaults);
        var s1 := if out.moveTo.Some? then FocusTo(s, OnItem(out.moveTo.value)) else s;
        if k == Escape then FocusTo(Close(s1), Button) else s1
  }

  /** A focus-out timer fires: the dropdown closes if focus is outside and the list shows. */
  function FocusCheck(s: State): State
    requires s.focusChecks > 0
  {
    var s1 := s.(focusChecks := s.focusChecks - 1);
    if s.focus.Elsewhere? && s.ctl.targetExpanded then Close(s1) else s1
  }

  /** The ArrowDown timer fires: focus goes to the first item with `tabindex="0"`, if any. */
  function OpenFocus(s: State): State
    requires s.openFocusTimers > 0
  {
    var s1 := s.(openFocusTimers := s.openFocusTimers - 1);
    match Find(Tabindexes(s.items), 0)
    case None => s1
    case Some(j) => FocusTo(s1, OnItem(j))
  }

  /** The events a dropdown receives. `FocusMoves` is focus moved by the user or the
      browser (Tab, a pointer), not by the dropdown's own code. */
  datatype Event =
    | ButtonClick | Key(k: Key) | ItemClick(i: nat)
    | FocusCheckFires | OpenFocusFires | FocusMoves(f: Focus)

  predicate Enabled(s: State, e: Event) {
    match e
    case ItemClick(i) => i < |s.items|
    case FocusCheckFires => s.focusChecks > 0
    case OpenFocusFires => s.openFocusTimers > 0
    case FocusMoves(f) => f.OnItem? ==> f.i < |s.items|
    case _ => true
  }

  function Step(s: State, e: Event): (r: State)
    requires WellFormed(s) && Enabled(s, e)
    ensures WellFormed(r) && |r.items| == |s.items|
  {
    match e
    case ButtonClick => Toggle(s)
    case Key(k) => Keydown(s, k)
    case ItemClick(i) => Select(s, i)
    case FocusCheckFires => FocusCheck(s)
    case OpenFocusFires => OpenFocus(s)
    case FocusMoves(f) => FocusTo(s, f)
  }

  /** Runs a sequence of events; None when one of them cannot happen in the state it meets. */
  function Run(s: State, es: seq<Event>): (r: Option<State>)
    requires WellFormed(s)
    ensures r.Some? ==> WellFormed(r.value)
    decreases |es|
  {
    if es == [] then Some(s)
    else if !Enabled(s, es[0]) then None
    else Run(Step(s, es[0]), es[1..])
  }

  /** Initialisation puts the widget in step exactly when the markup starts with
      neither `active` on the button nor `show` on the list. */
  lemma InitInStep(markup: seq<Item>, buttonText: Option<string>, active: bool, show: bool)
    ensures InStep(Init(markup, buttonText, active, show)) <==> !active && !show
    ensures !active && !show ==> Closed(Init(markup, buttonText, active, show))
  {
    var s := Init(markup, buttonText, active, show);
    if InStep(s) {
      assert s.ctl.ariaExpanded == Some(false);
    }
  }

  /** Selecting item i: it alone is selected, every sibling cleared, and, when it has a
      text, the button text (if present) shows that text and the dropdown is closed. */
  lemma SelectMarksOnlyChosen(s: State, i: nat)
    requires i < |s.items|
    ensures var r := Select(s, i);
            |r.items| == |s.items| &&
            (forall j :: 0 <= j < |r.items| ==>
               (r.items[j].selected <==> j == i) && r.items[j].ariaSelected == Some(j == i) &&
               (r.items[j].badge.Some? <==> s.items[j].badge.Some?) &&
               (r.items[j].badge.Some? ==> r.items[j].badge.value == (j == i)) &&
               r.items[j].text == s.items[j].text)
    ensures s.items[i].text.Some? ==>
              Closed(Select(s, i)) &&
              Select(s, i).buttonText == (if s.buttonText.Some? then s.items[i].text else None)
    ensures s.items[i].text.None? ==> Select(s, i).ctl == s.ctl && Select(s, i).buttonText == s.buttonText
  {
  }

  /** Selecting twice keeps the last choice: the earlier one leaves no trace on the items. */
  lemma {:induction false} SelectLastWins(items: seq<Item>, i: nat, j: nat)
    requires i < |items| && j < |items|
    ensures SelectOnly(SelectOnly(items, i), j) == SelectOnly(items, j)
  {
    var a := SelectOnly(SelectOnly(items, i), j);
    var b := SelectOnly(items, j);
    assert |a| == |b|;
    forall m | 0 <= m < |a| ensures a[m] == b[m] {
      assert SelectOnly(items, i)[m] == Marked(items[m], m == i);
    }
  }

  /** When open, every item has `tabindex="0"`, not a single one: with two or more
      items, more than one item is in the tab order at once. */
  lemma OpenListHasNoRovingTabindex(s: State)
    requires Opened(s) && |s.items| >= 2
    ensures s.items[0].tabindex == 0 && s.items[1].tabindex == 0
  {
  }

  /** Every event keeps `aria-expanded`, the classes and the tabindexes in step. */
  lemma StepKeepsInStep(s: State, e: Event)
    requires WellFormed(s) && Enabled(s, e) && InStep(s)
    ensures InStep(Step(s, e))
  {
    match e
    case ButtonClick =>
    case Key(k) =>
      match s.focus {
        case Elsewhere =>
        case Button =>
        case OnItem(i) =>
      }
    case ItemClick(i) =>
    case FocusCheckFires =>
    case OpenFocusFires =>
    case FocusMoves(f) =>
  }

  /** After any sequence of events from a closed start, `aria-expanded` matches the
      list's `show` class and every item's tabindex is 0 when shown and -1 otherwise. */
  lemma {:induction false} RunKeepsInStep(s: State, es: seq<Event>)
    requires WellFormed(s) && InStep(s)
    ensures Run(s, es).Some? ==> InStep(Run(s, es).value)
    ensures Run(s, es).Some? ==>
              Run(s, es).value.ctl.ariaExpanded == Some(Run(s, es).value.ctl.targetExpanded)
    decreases |es|
  {
    if es != [] && Enabled(s, es[0]) {
      StepKeepsInStep(s, es[0]);
      RunKeepsInStep(Step(s, es[0]), es[1..]);
    }
  }

  /** Escape pressed on an item always closes the dropdown and returns focus to the button. */
  lemma EscapeCloses(s: State, i: nat)
    requires WellFormed(s) && s.focus == OnItem(i)
    ensures Closed(Keydown(s, Escape)) && Keydown(s, Escape).focus == Button
  {
  }

  /** Enter or Space on an item with a text selects it, closes the list and focuses the button. */
  lemma ActivationSelects(s: State, i: nat, k: Key)
    requires WellFormed(s) && s.focus == OnItem(i) && IsActivation(k) && s.items[i].text.Some?
    ensures var r := Keydown(s, k);
            Closed(r) && r.focus == Button && r.items[i].selected &&
            (forall j :: 0 <= j < |r.items| && j != i ==> !r.items[j].selected)
  {
  }

  /** ArrowDown on the closed button opens the list and schedules focus on its first item. */
  lemma ArrowDownOpens(s: State)
    requires WellFormed(s) && Closed(s) && s.focus == Button
    ensures Opened(Keydown(s, ArrowDown))
    ensures Keydown(s, ArrowDown).openFocusTimers == s.openFocusTimers + 1
    ensures |s.items| > 0 ==> OpenFocus(Keydown(s, ArrowDown)).focus == OnItem(0)
  {
    var r := Keydown(s, ArrowDown);
    if |s.items| > 0 {
      assert Tabindexes(r.items)[0] == 0;
    }
  }

  /** A focus-out check closes the dropdown when, and only when, focus is outside
      while the list shows. */
  lemma FocusCheckClosesOutside(s: State)
    requires s.focusChecks > 0 && InStep(s)
    ensures Closed(FocusCheck(s)) <==> (s.focus.Elsewhere? || !s.ctl.targetExpanded)
  {
  }

  /** One dropdown on the page: the fields of `State`, with the button/list pair held
      by the `toggleExpandable` controller bound to them. */
  class Dropdown {
    const ctl: Expandable.Expandable
    var items: seq<Item>
    var buttonText: Option<string>
    var focus: Focus
    var focusChecks: nat
    var openFocusTimers: nat

    function View(): State
      reads this, ctl
    {
      State(ctl.View(), items, buttonText, focus, focusChecks, openFocusTimers)
    }

    ghost predicate Valid()
      reads this, ctl
    {
      ctl.onExpand && ctl.onCollapse && WellFormed(View())
    }

    constructor (markup: seq<Item>, buttonText: Option<string>, active: bool, show: bool)
      ensures Valid() && fresh(ctl)
      ensures View() == Init(markup, buttonText, active, show)
    {
      var c := new Expandable.Expandable(Expandable.Disclosure(active, show, Some(false)), true, true);
      ctl := c;
      var its := markup;
      var j := 0;
      while j < |its|
        invariant 0 <= j <= |its| && |its| == |markup|
        invariant forall m :: 0 <= m < j ==> its[m] == markup[m].(tabindex := -1)
        invariant forall m :: j <= m < |its| ==> its[m] == markup[m]
      {
        its := its[j := its[j].(tabindex := -1)];
        j := j + 1;
      }
      items := its;
      this.buttonText := buttonText;
      focus := Elsewhere;
      focusChecks, openFocusTimers := 0, 0;
    }

    /** `items.forEach(item => item.setAttribute('tabindex', t))`. */
    method SetTabindexAll(t: int)
      modifies this`items
      ensures items == WithTabindex(old(items), t)
    {
      var j := 0;
      while j < |items|
        invariant 0 <= j <= |items| && |items| == |old(items)|
        invariant forall m :: 0 <= m < j ==> items[m] == old(items)[m].(tabindex := t)
        invariant forall m :: j <= m < |items| ==> items[m] == old(items)[m]
      {
        items := items[j := items[j].(tabindex := t)];
        j := j + 1;
      }
    }

    /** `el.focus()` from the dropdown's own code, with the focus-out check it triggers. */
    method MoveFocus(f: Focus)
      modifies this`focus, this`focusChecks
      ensures View() == FocusTo(old(View()), f)
    {
      if focus != f && !focus.Elsewhere? {
        focusChecks := focusChecks + 1;
      }
      focus := f;
    }

    method CloseList()
      modifies this`items, ctl
      ensures View() == Close(old(View()))
    {
      ctl.triggerActive := false;
      ctl.ariaExpanded := Some(false);
      ctl.targetExpanded := false;
      SetTabindexAll(-1);
    }

    /** Applies the effect of the callback `toggle()` ran. */
    method Apply(fired: Expandable.Notify)
      modifies this`items
      ensures fired == Expandable.Expanded ==> items == WithTabindex(old(items), 0)
      ensures fired == Expandable.Collapsed ==> items == WithTabindex(old(items), -1)
      ensures fired == Expandable.Silent ==> items == old(items)
    {
      if fired == Expandable.Expanded {
        SetTabindexAll(0);
      } else if fired == Expandable.Collapsed {
        SetTabindexAll(-1);
      }
    }

    method ButtonClick()
      requires Valid()
      modifies this, ctl
      ensures Valid() && View() == Step(old(View()), Event.ButtonClick)
    {
      var fired := ctl.Click(false);
      Apply(fired);
    }

    method ItemClick(i: nat)
      requires Valid() && i < |items|
      modifies this, ctl
      ensures Valid() && View() == Step(old(View()), Event.ItemClick(i))
    {
      var j := 0;
      while j < |items|
        invariant 0 <= j <= |items| && |items| == |old(items)|
        invariant forall m :: 0 <= m < j ==> items[m] == Marked(old(items)[m], false)
        invariant forall m :: j <= m < |items| ==> items[m] == old(items)[m]
        modifies this`items
      {
        items := items[j := Marked(items[j], false)];
        j := j + 1;
      }
      items := items[i := Marked(items[i], true)];
      assert items == SelectOnly(old(items), i);
      assert items[i].text == old(items)[i].text;
      match items[i].text {
        case None =>
        case Some(t) =>
          if buttonText.Some? {
            buttonText := Some(t);
          }
          CloseList();
      }
    }

    method Keydown(k: Key)
      requires Valid()
      modifies this, ctl
      ensures Valid() && View() == Step(old(View()), Event.Key(k))
    {
      match focus {
        case Elsewhere =>
        case Button =>
          var act, fired := ctl.Keydown(k);
          Apply(fired);
          if act.focusFirstLater {
            openFocusTimers := openFocusTimers + 1;
          }
        case OnItem(i) =>
          if IsActivation(k) {
            ItemClick(i);
            MoveFocus(Button);
          } else {
            var out := Navigation.HandleKeydown(|items|, Some(i), k, Navigation.Defaults);
            if out.moveTo.Some? {
              MoveFocus(OnItem(out.moveTo.value));
            }
            if k == Escape {
              CloseList();
              MoveFocus(Button);
            }
          }
      }
    }

    method FocusCheckFires()
      requires Valid() && focusChecks > 0
      modifies this, ctl
      ensures Valid() && View() == Step(old(View()), Event.FocusCheckFires)
    {
      focusChecks := focusChecks - 1;
      if focus.Elsewhere? && ctl.targetExpanded {
        CloseList();
      }
    }

    method OpenFocusFires()
      requires Valid() && openFocusTimers > 0
      modifies this
      ensures Valid() && View() == Step(old(View()), Event.OpenFocusFires)
    {
      openFocusTimers := openFocusTimers - 1;
      var j := FindIndex(Tabindexes(items), 0);
      if j.Some? {
        MoveFocus(OnItem(j.value));
      }
    }

    method FocusMoves(f: Focus)
      requires Valid() && (f.OnItem? ==> f.i < |items|)
      modifies this
      ensures Valid() && View() == Step(old(View()), Event.FocusMoves(f))
    {
      MoveFocus(f);
    }
  }
}
