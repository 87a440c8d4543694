/** `initMultiSelect(container)`: a multi-select made of a `.select__field` that holds
    the tag chips and the placeholder, a `.select__options` list of `.select__option`s,
    a hidden native `<select>` mirror (`.select__native`) and an `aria-live` announcer.

    As for the dropdown, the state is first a value (`State`) with one transition per
    event (`Step`); the class `MultiSelect` at the end holds it in fields and its
    methods are proved to perform exactly those transitions. */
module MultiSelect {
  import opened Common
  import Navigation
  import Expandable

  /** One `.select__option`: its `data-value`, its trimmed text, its `selected` class,
      its `aria-selected` (None while unwritten) and its `tabindex`. */
  datatype Opt = Opt(value: string, text: string, selected: bool, ariaSelected: Option<bool>, tabindex: int)

  /** One `<option>` of the native mirror. */
  datatype NativeOpt = NativeOpt(value: string, selected: bool)

  /** What a tag's remove handler captured when the tag was made: a tag made at
      initialisation holds its option element; a tag made by `toggleOption` holds the
      `isSelected` that was true when it was made. */
  datatype Origin = AtInit(option: nat) | ByToggle(captured: bool)

  /** One `.select__tag` chip; `id` stands for the identity of its DOM node. */
  datatype Tag = Tag(id: nat, value: string, text: string, origin: Origin)

  /** Where keyboard focus is: outside the container, on the field, on an option, or on
      the remove button of the tag with the given id. */
  datatype Focus = Elsewhere | Field | OnOption(i: nat) | OnRemove(id: nat)

  /** `panel` is the field's `active` class, the options list's `show` class and the
      field's `aria-expanded`; `placeholder` is None when the field has no
      `.select__placeholder` and otherwise whether it is displayed; `announcer` is None
      when there is no live region and otherwise its text. */
  datatype State = State(panel: Expandable.Disclosure, options: seq<Opt>, native: seq<NativeOpt>,
                         tags: seq<Tag>, nextTag: nat, placeholder: Option<bool>,
                         announcer: Option<string>, focus: Focus,
                         focusChecks: nat, openFocusTimers: nat)

  function OptionValues(options: seq<Opt>): (r: seq<string>)
    ensures |r| == |options| && forall i :: 0 <= i < |r| ==> r[i] == options[i].value
  {
    seq(|options|, i requires 0 <= i < |options| => options[i].value)
  }

  function NativeValues(native: seq<NativeOpt>): (r: seq<string>)
    ensures |r| == |native| && forall i :: 0 <= i < |r| ==> r[i] == native[i].value
  {
    seq(|native|, i requires 0 <= i < |native| => native[i].value)
  }

  function TagValues(tags: seq<Tag>): (r: seq<string>)
    ensures |r| == |tags| && forall k :: 0 <= k < |r| ==> r[k] == tags[k].value
  {
    seq(|tags|, k requires 0 <= k < |tags| => tags[k].value)
  }

  function TagIds(tags: seq<Tag>): (r: seq<nat>)
    ensures |r| == |tags| && forall k :: 0 <= k < |r| ==> r[k] == tags[k].id
  {
    seq(|tags|, k requires 0 <= k < |tags| => tags[k].id)
  }

  predicate Distinct<T(==)>(s: seq<T>) {
    forall a, b :: 0 <= a < b < |s| ==> s[a] != s[b]
  }

  predicate WellFormed(s: State) {
    && (s.focus.OnOption? ==> s.focus.i < |s.options|)
    && (s.focus.OnRemove? ==> s.focus.id in TagIds(s.tags))
    && Distinct(TagIds(s.tags))
    && (forall k :: 0 <= k < |s.tags| ==> s.tags[k].id < s.nextTag)
    && (forall k :: 0 <= k < |s.tags| && s.tags[k].origin.AtInit? ==> s.tags[k].origin.option < |s.options|)
  }

  /** The result of `optionItems.forEach(item => item.setAttribute('tabindex', t))`. */
  function WithTabindex(options: seq<Opt>, t: int): (r: seq<Opt>)
    ensures |r| == |options|
    ensures forall i :: 0 <= i < |r| ==> r[i] == options[i].(tabindex := t)
  {
    seq(|options|, i requires 0 <= i < |options| => options[i].(tabindex := t))
  }

  /** The tags made at initialisation: one per option that has the `selected` class,
      in option order, numbered from `id`. */
  function InitialTags(options: seq<Opt>, from: nat, id: nat): (r: seq<Tag>)
    requires from <= |options|
    decreases |options| - from
  {
    if from == |options| then []
    else if options[from].selected then
      [Tag(id, options[from].value, options[from].text, AtInit(from))] + InitialTags(options, from + 1, id + 1)
    else InitialTags(options, from + 1, id)
  }

  /** Initialisation: every option gets `tabindex="-1"`, the field `aria-expanded="false"`,
      and a tag is appended for each option that is already selected. The native
      mirror, the placeholder, the announcer and the options' `aria-selected` are left
      as the markup has them. */
  function Init(markup: seq<Opt>, native: seq<NativeOpt>, placeholder: Option<bool>,
                announcer: Option<string>, active: bool, show: bool): State
  {
    var tags := InitialTags(markup, 0, 0);
    State(Expandable.Disclosure(active, show, Some(false)), WithTabindex(markup, -1), native,
          tags, |tags|, placeholder, announcer, Elsewhere, 0, 0)
  }

  /** The text written into the live region. */
  function Announcement(text: string, added: bool): string {
    text + (if added then " 항목이 선택되었습니다." else " 항목이 제거되었습니다.")
  }

  /** `nativeOption.selected = b` on the first native option with value v, if there is one. */
  function SetNative(native: seq<NativeOpt>, v: string, b: bool): (r: seq<NativeOpt>)
    ensures NativeValues(r) == NativeValues(native)
  {
    match Find(NativeValues(native), v)
    case None => native
    case Some(j) => native[j := native[j].(selected := b)]
  }

  /** The native option's `selected` flag for value v, None when no native option has it. */
  function NativeSelected(native: seq<NativeOpt>, v: string): Option<bool> {
    match Find(NativeValues(native), v)
    case None => None
    case Some(j) => Some(native[j].selected)
  }

  function Deselected(o: Opt): Opt {
    o.(selected := false, ariaSelected := Some(false))
  }

  function RemoveAt<T>(s: seq<T>, k: nat): (r: seq<T>)
    requires k < |s|
    ensures |r| == |s| - 1
    ensures forall m :: 0 <= m < k ==> r[m] == s[m]
    ensures forall m :: k <= m < |r| ==> r[m] == s[m + 1]
  {
    s[..k] + s[k + 1..]
  }

  /** `el.focus()` from the widget's code: leaving an element inside the container
      schedules one focus-out check. */
  function FocusTo(s: State, f: Focus): State {
    var leaves := s.focus != f && !s.focus.Elsewhere?;
    s.(focus := f, focusChecks := if leaves then s.focusChecks + 1 else s.focusChecks)
  }

  /** The open and the close branches of the field's handlers (and of Escape and
      focus-out): classes, `aria-expanded` and every option's tabindex together. */
  function SetOpen(s: State, open: bool): State {
    s.(panel := Expandable.Disclosure(open, open, Some(open)),
       options := WithTabindex(s.options, if open then 0 else -1))
  }

  /** Tag k leaves the field: the placeholder returns when no tag is left, the removal
      is announced, and focus on its remove button is lost. */
  function TagRemoved(s: State, k: nat, text: string): State
    requires k < |s.tags|
  {
    var tags := RemoveAt(s.tags, k);
    s.(tags := tags,
       placeholder := if |tags| == 0 && s.placeholder.Some? then Some(true) else s.placeholder,
       announcer := if s.announcer.Some? then Some(Announcement(text, false)) else None,
       focus := if s.focus == OnRemove(s.tags[k].id) then Elsewhere else s.focus)
  }

  /** `toggleOption(option i)`. */
  function ToggleOption(s: State, i: nat): State
    requires i < |s.options|
  {
    var o := s.options[i];
    var sel := !o.selected;
    var s1 := s.(options := s.options[i := o.(selected := sel, ariaSelected := Some(sel))],
                 native := SetNative(s.native, o.value, sel));
    if sel then
      s1.(placeholder := if s.placeholder.Some? then Some(false) else None,
          tags := s.tags + [Tag(s.nextTag, o.value, o.text, ByToggle(true))],
          nextTag := s.nextTag + 1,
          announcer := if s.announcer.Some? then Some(Announcement(o.text, true)) else None)
    else
      match Find(TagValues(s.tags), o.value)
      case None => s1
      case Some(k) => TagRemoved(s1, k, o.text)
  }

  /** A click on the remove button of the tag with the given id. */
  function RemoveTag(s: State, id: nat): State
    requires WellFormed(s) && id in TagIds(s.tags)
  {
    var k := Find(TagIds(s.tags), id).value;
    var t := s.tags[k];
    var options := match t.origin
      case AtInit(oi) => s.options[oi := Deselected(s.options[oi])]
      case ByToggle(_) =>
        match Find(OptionValues(s.options), t.value)
        case None => s.options
        case Some(oi) => s.options[oi := Deselected(s.options[oi])];
    var written := match t.origin
      case AtInit(_) => false
      case ByToggle(captured) => captured;
    TagRemoved(s.(options := options, native := SetNative(s.native, t.value, written)), k, t.text)
  }

  /** The field's keydown handler. */
  function FieldKeydown(s: State, k: Key): State {
    if IsActivation(k) then SetOpen(s, !s.panel.targetExpanded)
    else if k == ArrowDown && !s.panel.triggerActive then
      var s1 := SetOpen(s, true);
      s1.(openFocusTimers := s1.openFocusTimers + 1)
    else s
  }

  /** A keydown, delivered to the focused element and bubbling up: from a tag's remove
      button to the field that contains it, from an option to the options list. */
  function Keydown(s: State, k: Key): State
    requires WellFormed(s)
  {
    match s.focus
    case Elsewhere => s
    case Field => FieldKeydown(s, k)
    case OnRemove(id) =>
      FieldKeydown(if IsActivation(k) then RemoveTag(s, id) else s, k)
    case OnOption(i) =>
      OptionListKeydown(if IsActivation(k) then ToggleOption(s, i) else s, i, k)
  }

  /** The options list's handlers for a keydown that bubbled up from option i:
      `arrowNavigation`, then the Escape handler. */
  function OptionListKeydown(s: State, i: nat, k: Key): State
    requires i < |s.options|
  {
    var out := Navigation.HandleKeydown(|s.options|, Some(i), k, Navigation.Defaults);
    var s1 := if out.moveTo.Some? then FocusTo(s, OnOption(out.moveTo.value)) else s;
    if k == Escape then FocusTo(SetOpen(s1, false), Field) else s1
  }

  /** A focus-out timer fires: the list closes if focus is outside while it shows. */
  function FocusCheck(s: State): State
    requires s.focusChecks > 0
  {
    var s1 := s.(focusChecks := s.focusChecks - 1);
    if s.focus.Elsewhere? && s.panel.targetExpanded then SetOpen(s1, false) else s1
  }

  /** The ArrowDown timer fires: focus goes to the first option, if there is one. */
  function OpenFocus(s: State): State
    requires s.openFocusTimers > 0
  {
    var s1 := s.(openFocusTimers := s.openFocusTimers - 1);
    if |s.options| > 0 then FocusTo(s1, OnOption(0)) else s1
  }

  /** The events a multi-select receives. `FieldClick` is a click on the field outside
      any remove button; `FocusMoves` is focus moved by the user or the browser. */
  datatype Event =
    | FieldClick | OptionClick(i: nat) | RemoveClick(id: nat) | Key(k: Key)
    | FocusCheckFires | OpenFocusFires | FocusMoves(f: Focus)

  predicate Enabled(s: State, e: Event) {
    match e
    case OptionClick(i) => i < |s.options|
    case RemoveClick(id) => id in TagIds(s.tags)
    case FocusCheckFires => s.focusChecks > 0
    case OpenFocusFires => s.openFocusTimers > 0
    case FocusMoves(f) =>
      (f.OnOption? ==> f.i < |s.options|) && (f.OnRemove? ==> f.id in TagIds(s.tags))
    case _ => true
  }

  function Step(s: State, e: Event): State
    requires WellFormed(s) && Enabled(s, e)
  {
    match e
    case FieldClick => SetOpen(s, !s.panel.targetExpanded)
    case OptionClick(i) => ToggleOption(s, i)
    case RemoveClick(id) => RemoveTag(s, id)
    case Key(k) => Keydown(s, k)
    case FocusCheckFires => FocusCheck(s)
    case OpenFocusFires => OpenFocus(s)
    case FocusMoves(f) => FocusTo(s, f)
  }

  // ---------------------------------------------------------------------------
  // Invariants

  /** The values of the options that carry the `selected` class. */
  function SelectedValues(options: seq<Opt>): set<string> {
    set i | 0 <= i < |options| && options[i].selected :: options[i].value
  }

  /** The `data-value`s of the tags in the field. */
  function TagValueSet(tags: seq<Tag>): set<string> {
    set k | 0 <= k < |tags| :: tags[k].value
  }

  /** Tags and options agree: one tag per selected option, none for the others, and a
      tag made at initialisation still names the option whose value it carries. */
  predicate TagsMatch(s: State) {
    && Distinct(TagValues(s.tags))
    && TagValueSet(s.tags) == SelectedValues(s.options)
    && InitTagsNamed(s)
  }

  /** A tag made at initialisation still names the option whose value it carries. */
  predicate InitTagsNamed(s: State) {
    forall k :: 0 <= k < |s.tags| && s.tags[k].origin.AtInit? && s.tags[k].origin.option < |s.options| ==>
      s.options[s.tags[k].origin.option].value == s.tags[k].value
  }

  /** The placeholder, when there is one, is displayed exactly when no tag is. */
  predicate PlaceholderMatch(s: State) {
    s.placeholder.Some? ==> s.placeholder.value == (|s.tags| == 0)
  }

  /** Every option has tabindex t. */
  predicate AllTabindex(options: seq<Opt>, t: int) {
    forall i :: 0 <= i < |options| ==> options[i].tabindex == t
  }

  /** `active`, `show`, `aria-expanded` and every option's tabindex (0 shown, -1 hidden) agree. */
  predicate PanelInStep(s: State) {
    var open := s.panel.targetExpanded;
    s.panel == Expandable.Disclosure(open, open, Some(open)) && AllTabindex(s.options, if open then 0 else -1)
  }

  /** Everything the widget keeps true, given option values that are all different. */
  predicate Consistent(s: State) {
    WellFormed(s) && Distinct(OptionValues(s.options)) && TagsMatch(s) && PlaceholderMatch(s) && PanelInStep(s)
  }

  /** The native mirror agrees with every option it has an `<option>` for. */
  predicate Mirrors(s: State) {
    forall i :: 0 <= i < |s.options| ==> NativeSelected(s.native, s.options[i].value) != Some(!s.options[i].selected)
  }

  /** The tag with this id was made by `toggleOption`. */
  predicate ToggledTag(s: State, id: nat) {
    id in TagIds(s.tags) && s.tags[Find(TagIds(s.tags), id).value].origin.ByToggle?
  }

  /** The event runs the remove handler of a tag made by `toggleOption`. */
  predicate RemovesToggledTag(s: State, e: Event) {
    match e
    case RemoveClick(id) => ToggledTag(s, id)
    case Key(k) => s.focus.OnRemove? && IsActivation(k) && ToggledTag(s, s.focus.id)
    case _ => false
  }

  // ---------------------------------------------------------------------------
  // Helper facts

  lemma SelectedAfterUpdate(options: seq<Opt>, i: nat, o: Opt)
    requires i < |options| && Distinct(OptionValues(options)) && o.value == options[i].value
    ensures OptionValues(options[i := o]) == OptionValues(options)
    ensures SelectedValues(options[i := o]) ==
              if o.selected then SelectedValues(options) + {o.value} else SelectedValues(options) - {o.value}
  {
    var after := options[i := o];
    assert OptionValues(after) == OptionValues(options);
    var want := if o.selected then SelectedValues(options) + {o.value} else SelectedValues(options) - {o.value};
    forall x | x in SelectedValues(after) ensures x in want {
      var j :| 0 <= j < |after| && after[j].selected && after[j].value == x;
      if j != i {
        assert options[j].value != options[i].value by {
          if j < i { assert OptionValues(options)[j] != OptionValues(options)[i]; }
          else { assert OptionValues(options)[i] != OptionValues(options)[j]; }
        }
        assert x in SelectedValues(options);
      }
    }
    forall x | x in want ensures x in SelectedValues(after) {
      if o.selected && x == o.value {
        assert after[i].selected && after[i].value == x;
      } else {
        var j :| 0 <= j < |options| && options[j].selected && options[j].value == x;
        assert j != i;
        assert after[j] == options[j];
      }
    }
  }

  lemma SelectedWithTabindex(options: seq<Opt>, t: int)
    ensures OptionValues(WithTabindex(options, t)) == OptionValues(options)
    ensures SelectedValues(WithTabindex(options, t)) == SelectedValues(options)
  {
    var w := WithTabindex(options, t);
    assert OptionValues(w) == OptionValues(options);
    forall x | x in SelectedValues(options) ensures x in SelectedValues(w) {
      var j :| 0 <= j < |options| && options[j].selected && options[j].value == x;
      assert w[j].selected && w[j].value == x;
    }
  }

  lemma TagSetAppend(tags: seq<Tag>, t: Tag)
    ensures TagValueSet(tags + [t]) == TagValueSet(tags) + {t.value}
    ensures TagIds(tags + [t]) == TagIds(tags) + [t.id]
    ensures TagValues(tags + [t]) == TagValues(tags) + [t.value]
  {
    var after := tags + [t];
    assert after[|tags|] == t;
    forall x | x in TagValueSet(tags) ensures x in TagValueSet(after) {
      var k :| 0 <= k < |tags| && tags[k].value == x;
      assert after[k] == tags[k];
    }
  }

  lemma TagSetRemove(tags: seq<Tag>, k: nat)
    requires k < |tags| && Distinct(TagValues(tags))
    ensures TagValueSet(RemoveAt(tags, k)) == TagValueSet(tags) - {tags[k].value}
    ensures Distinct(TagValues(RemoveAt(tags, k)))
  {
    var after := RemoveAt(tags, k);
    forall x | x in TagValueSet(after) ensures x in TagValueSet(tags) - {tags[k].value} {
      var m :| 0 <= m < |after| && after[m].value == x;
      var src := if m < k then m else m + 1;
      assert after[m] == tags[src];
      assert src != k;
      if src < k { assert TagValues(tags)[src] != TagValues(tags)[k]; }
      else { assert TagValues(tags)[k] != TagValues(tags)[src]; }
    }
    forall x | x in TagValueSet(tags) - {tags[k].value} ensures x in TagValueSet(after) {
      var m :| 0 <= m < |tags| && tags[m].value == x;
      assert m != k;
      var dst := if m < k then m else m - 1;
      assert after[dst] == tags[m];
    }
    forall a, b | 0 <= a < b < |after| ensures TagValues(after)[a] != TagValues(after)[b] {
      var sa := if a < k then a else a + 1;
      var sb := if b < k then b else b + 1;
      assert TagValues(tags)[sa] != TagValues(tags)[sb];
    }
  }

  lemma TagIdsRemove(tags: seq<Tag>, k: nat, bound: nat)
    requires k < |tags| && Distinct(TagIds(tags))
    requires forall m :: 0 <= m < |tags| ==> tags[m].id < bound
    ensures Distinct(TagIds(RemoveAt(tags, k)))
    ensures forall m :: 0 <= m < |tags| - 1 ==> RemoveAt(tags, k)[m].id < bound
    ensures forall id :: id in TagIds(tags) && id != tags[k].id ==> id in TagIds(RemoveAt(tags, k))
  {
    var after := RemoveAt(tags, k);
    forall a, b | 0 <= a < b < |after| ensures TagIds(after)[a] != TagIds(after)[b] {
      var sa := if a < k then a else a + 1;
      var sb := if b < k then b else b + 1;
      assert TagIds(tags)[sa] != TagIds(tags)[sb];
    }
    forall id | id in TagIds(tags) && id != tags[k].id ensures id in TagIds(after) {
      var m :| 0 <= m < |tags| && tags[m].id == id;
      var dst := if m < k then m else m - 1;
      assert TagIds(after)[dst] == id;
    }
  }

  lemma NativeAfterSet(native: seq<NativeOpt>, v: string, b: bool, w: string)
    ensures NativeSelected(SetNative(native, v, b), w) ==
              if w == v && NativeSelected(native, v).Some? then Some(b) else NativeSelected(native, w)
  {
  }

  lemma ValuesDiffer(options: seq<Opt>, a: nat, b: nat)
    requires Distinct(OptionValues(options)) && a < |options| && b < |options| && a != b
    ensures options[a].value != options[b].value
  {
    if a < b { assert OptionValues(options)[a] != OptionValues(options)[b]; }
    else { assert OptionValues(options)[b] != OptionValues(options)[a]; }
  }

  /** The option holding a selected value is the only option with that value. */
  lemma SelectedHolder(options: seq<Opt>, i: nat)
    requires Distinct(OptionValues(options)) && i < |options|
    ensures options[i].value in SelectedValues(options) <==> options[i].selected
  {
    if options[i].value in SelectedValues(options) {
      var j :| 0 <= j < |options| && options[j].selected && options[j].value == options[i].value;
      if j != i { ValuesDiffer(options, i, j); }
    }
  }

  lemma TagValuesIn(tags: seq<Tag>, v: string)
    ensures v in TagValues(tags) <==> v in TagValueSet(tags)
  {
    if v in TagValues(tags) {
      var k :| 0 <= k < |tags| && TagValues(tags)[k] == v;
      assert tags[k].value == v;
    }
    if v in TagValueSet(tags) {
      var k :| 0 <= k < |tags| && tags[k].value == v;
      assert TagValues(tags)[k] == v;
    }
  }

  // ---------------------------------------------------------------------------
  // Each transition keeps the invariants

  lemma SetOpenKeeps(s: State, open: bool)
    requires Consistent(s)
    ensures Consistent(SetOpen(s, open)) && SetOpen(s, open).panel.targetExpanded == open
    ensures OptionValues(SetOpen(s, open).options) == OptionValues(s.options)
    ensures Mirrors(s) ==> Mirrors(SetOpen(s, open))
  {
    SelectedWithTabindex(s.options, if open then 0 else -1);
  }

  lemma FocusToKeeps(s: State, f: Focus)
    requires Consistent(s)
    requires f.OnOption? ==> f.i < |s.options|
    requires f.OnRemove? ==> f.id in TagIds(s.tags)
    ensures Consistent(FocusTo(s, f)) && FocusTo(s, f).options == s.options
    ensures Mirrors(s) ==> Mirrors(FocusTo(s, f))
  {
  }

  /** The fields `toggleOption` changes, spelled out. */
  lemma ToggleShape(s: State, i: nat)
    requires i < |s.options|
    ensures var o := s.options[i];
            var r := ToggleOption(s, i);
            && r.options == s.options[i := o.(selected := !o.selected, ariaSelected := Some(!o.selected))]
            && r.native == SetNative(s.native, o.value, !o.selected)
            && r.panel == s.panel && r.focusChecks == s.focusChecks && r.openFocusTimers == s.openFocusTimers
            && (!o.selected ==> r.tags == s.tags + [Tag(s.nextTag, o.value, o.text, ByToggle(true))]
                                && r.nextTag == s.nextTag + 1 && r.focus == s.focus
                                && r.placeholder == (if s.placeholder.Some? then Some(false) else None))
            && (o.selected && o.value in TagValues(s.tags) ==>
                  var k := Find(TagValues(s.tags), o.value).value;
                  r == TagRemoved(s.(options := r.options, native := r.native), k, o.text))
            && (o.selected && o.value !in TagValues(s.tags) ==> r.tags == s.tags && r.focus == s.focus && r.placeholder == s.placeholder)
  {
  }

  lemma ToggleSelectKeeps(s: State, i: nat)
    requires Consistent(s) && i < |s.options| && !s.options[i].selected
    ensures Consistent(ToggleOption(s, i))
    ensures OptionValues(ToggleOption(s, i).options) == OptionValues(s.options)
  {
    var o := s.options[i];
    var o' := o.(selected := true, ariaSelected := Some(true));
    ToggleShape(s, i);
    SelectedAfterUpdate(s.options, i, o');
    SelectedHolder(s.options, i);
    var t := Tag(s.nextTag, o.value, o.text, ByToggle(true));
    TagSetAppend(s.tags, t);
    TagValuesIn(s.tags, o.value);
    assert s.nextTag !in TagIds(s.tags);
    var r := ToggleOption(s, i);
    assert Distinct(TagValues(r.tags));
    assert Distinct(TagIds(r.tags));
    assert TagsMatch(r);
  }

  /** Removing tag k keeps the widget consistent once the options no longer select its value. */
  lemma TagRemovedKeeps(s: State, k: nat, text: string)
    requires WellFormed(s) && k < |s.tags| && Distinct(OptionValues(s.options))
    requires Distinct(TagValues(s.tags)) && InitTagsNamed(s) && PlaceholderMatch(s) && PanelInStep(s)
    requires TagValueSet(s.tags) - {s.tags[k].value} == SelectedValues(s.options)
    ensures Consistent(TagRemoved(s, k, text))
  {
    TagRemovedWellFormed(s, k, text);
    TagSetRemove(s.tags, k);
    var r := TagRemoved(s, k, text);
    forall m | 0 <= m < |r.tags| && r.tags[m].origin.AtInit? && r.tags[m].origin.option < |r.options|
      ensures r.options[r.tags[m].origin.option].value == r.tags[m].value
    {
      assert r.tags[m] == s.tags[if m < k then m else m + 1];
    }
  }

  lemma ToggleDeselectKeeps(s: State, i: nat)
    requires Consistent(s) && i < |s.options| && s.options[i].selected
    ensures Consistent(ToggleOption(s, i))
    ensures OptionValues(ToggleOption(s, i).options) == OptionValues(s.options)
  {
    var o := s.options[i];
    var o' := o.(selected := false, ariaSelected := Some(false));
    ToggleShape(s, i);
    SelectedAfterUpdate(s.options, i, o');
    assert o.value in SelectedValues(s.options);
    TagValuesIn(s.tags, o.value);
    var k := Find(TagValues(s.tags), o.value).value;
    var s1 := s.(options := s.options[i := o'], native := SetNative(s.native, o.value, false));
    assert PanelInStep(s1) by {
      assert forall j :: 0 <= j < |s1.options| ==> s1.options[j].tabindex == s.options[j].tabindex;
    }
    assert InitTagsNamed(s1) by {
      assert forall j :: 0 <= j < |s1.options| ==> s1.options[j].value == s.options[j].value;
    }
    TagRemovedKeeps(s1, k, o.text);
  }

  lemma ToggleMirrors(s: State, i: nat)
    requires Distinct(OptionValues(s.options)) && i < |s.options| && Mirrors(s)
    ensures Mirrors(ToggleOption(s, i))
  {
    var o := s.options[i];
    var sel := !o.selected;
    ToggleShape(s, i);
    var r := ToggleOption(s, i);
    forall m | 0 <= m < |r.options|
      ensures NativeSelected(r.native, r.options[m].value) != Some(!r.options[m].selected)
    {
      NativeAfterSet(s.native, o.value, sel, s.options[m].value);
      if m != i { ValuesDiffer(s.options, m, i); }
    }
  }

  lemma ToggleKeeps(s: State, i: nat)
    requires Consistent(s) && i < |s.options|
    ensures Consistent(ToggleOption(s, i))
    ensures OptionValues(ToggleOption(s, i).options) == OptionValues(s.options)
    ensures Mirrors(s) ==> Mirrors(ToggleOption(s, i))
  {
    if s.options[i].selected { ToggleDeselectKeeps(s, i); } else { ToggleSelectKeeps(s, i); }
    if Mirrors(s) { ToggleMirrors(s, i); }
  }

  /** The option a tag's remove handler deselects: the captured one for a tag made at
      initialisation, the first with the tag's value for one made by `toggleOption`. */
  function RemovedOption(s: State, t: Tag): Option<nat>
    requires t.origin.AtInit? ==> t.origin.option < |s.options|
  {
    match t.origin
    case AtInit(x) => Some(x)
    case ByToggle(_) => Find(OptionValues(s.options), t.value)
  }

  /** The fields a tag's remove handler changes, spelled out. */
  lemma RemoveShape(s: State, id: nat)
    requires WellFormed(s) && id in TagIds(s.tags)
    ensures var k := Find(TagIds(s.tags), id).value;
            var t := s.tags[k];
            var options := match RemovedOption(s, t)
              case None => s.options
              case Some(oi) => s.options[oi := Deselected(s.options[oi])];
            RemoveTag(s, id) ==
              TagRemoved(s.(options := options,
                            native := SetNative(s.native, t.value, t.origin.ByToggle? && t.origin.captured)), k, t.text)
  {
  }

  /** The option a remove handler deselects exists and carries the tag's value. */
  lemma RemovedOptionHolds(s: State, k: nat)
    requires Consistent(s) && k < |s.tags|
    ensures RemovedOption(s, s.tags[k]).Some?
    ensures RemovedOption(s, s.tags[k]).value < |s.options|
    ensures s.options[RemovedOption(s, s.tags[k]).value].value == s.tags[k].value
  {
    var t := s.tags[k];
    assert t.value in TagValueSet(s.tags);
    var holder :| 0 <= holder < |s.options| && s.options[holder].selected && s.options[holder].value == t.value;
    assert OptionValues(s.options)[holder] == t.value;
  }

  lemma RemoveKeepsConsistent(s: State, id: nat)
    requires Consistent(s) && id in TagIds(s.tags)
    ensures Consistent(RemoveTag(s, id))
    ensures OptionValues(RemoveTag(s, id).options) == OptionValues(s.options)
  {
    var k := Find(TagIds(s.tags), id).value;
    var t := s.tags[k];
    RemovedOptionHolds(s, k);
    var oi := RemovedOption(s, t).value;
    var s1 := s.(options := s.options[oi := Deselected(s.options[oi])],
                 native := SetNative(s.native, t.value, t.origin.ByToggle? && t.origin.captured));
    assert RemoveTag(s, id) == TagRemoved(s1, k, t.text) by {
      RemoveShape(s, id);
    }
    SelectedAfterUpdate(s.options, oi, Deselected(s.options[oi]));
    assert PanelInStep(s1) by {
      assert forall j :: 0 <= j < |s1.options| ==> s1.options[j].tabindex == s.options[j].tabindex;
    }
    assert InitTagsNamed(s1) by {
      assert forall j :: 0 <= j < |s1.options| ==> s1.options[j].value == s.options[j].value;
    }
    TagRemovedKeeps(s1, k, t.text);
  }

  lemma RemoveMirrors(s: State, id: nat)
    requires Consistent(s) && id in TagIds(s.tags) && Mirrors(s) && !ToggledTag(s, id)
    ensures Mirrors(RemoveTag(s, id))
  {
    RemoveShape(s, id);
    var k := Find(TagIds(s.tags), id).value;
    var t := s.tags[k];
    var oi := t.origin.option;
    var r := RemoveTag(s, id);
    assert r.options == s.options[oi := Deselected(s.options[oi])];
    assert r.native == SetNative(s.native, t.value, false);
    forall m | 0 <= m < |r.options|
      ensures NativeSelected(r.native, r.options[m].value) != Some(!r.options[m].selected)
    {
      NativeAfterSet(s.native, t.value, false, s.options[m].value);
      if m != oi { ValuesDiffer(s.options, m, oi); }
    }
  }

  lemma RemoveKeeps(s: State, id: nat)
    requires Consistent(s) && id in TagIds(s.tags)
    ensures Consistent(RemoveTag(s, id))
    ensures OptionValues(RemoveTag(s, id).options) == OptionValues(s.options)
    ensures Mirrors(s) && !ToggledTag(s, id) ==> Mirrors(RemoveTag(s, id))
  {
    RemoveKeepsConsistent(s, id);
    if Mirrors(s) && !ToggledTag(s, id) { RemoveMirrors(s, id); }
  }

  lemma FieldKeydownKeeps(s: State, k: Key)
    requires Consistent(s)
    ensures Consistent(FieldKeydown(s, k))
    ensures OptionValues(FieldKeydown(s, k).options) == OptionValues(s.options)
    ensures Mirrors(s) ==> Mirrors(FieldKeydown(s, k))
  {
    if IsActivation(k) {
      SetOpenKeeps(s, !s.panel.targetExpanded);
    } else if k == ArrowDown && !s.panel.triggerActive {
      SetOpenKeeps(s, true);
    }
  }

  lemma RemoveKeydownKeeps(s: State, k: Key)
    requires Consistent(s) && s.focus.OnRemove?
    ensures Consistent(Keydown(s, k))
    ensures OptionValues(Keydown(s, k).options) == OptionValues(s.options)
    ensures Mirrors(s) && !RemovesToggledTag(s, Key(k)) ==> Mirrors(Keydown(s, k))
  {
    var id := s.focus.id;
    if IsActivation(k) {
      var mid := RemoveTag(s, id);
      assert Keydown(s, k) == FieldKeydown(mid, k);
      RemoveKeeps(s, id);
      FieldKeydownKeeps(mid, k);
    } else {
      assert Keydown(s, k) == FieldKeydown(s, k);
      FieldKeydownKeeps(s, k);
    }
  }

  /** The list's navigation and Escape handlers keep the widget consistent and the mirror. */
  lemma OptionListKeeps(s: State, i: nat, k: Key)
    requires Consistent(s) && i < |s.options|
    ensures Consistent(OptionListKeydown(s, i, k))
    ensures OptionValues(OptionListKeydown(s, i, k).options) == OptionValues(s.options)
    ensures Mirrors(s) ==> Mirrors(OptionListKeydown(s, i, k))
  {
    var out := Navigation.HandleKeydown(|s.options|, Some(i), k, Navigation.Defaults);
    var s1 := if out.moveTo.Some? then FocusTo(s, OnOption(out.moveTo.value)) else s;
    if out.moveTo.Some? { FocusToKeeps(s, OnOption(out.moveTo.value)); }
    if k == Escape {
      SetOpenKeeps(s1, false);
      FocusToKeeps(SetOpen(s1, false), Field);
    }
  }

  lemma OptionKeydownKeeps(s: State, k: Key)
    requires Consistent(s) && s.focus.OnOption?
    ensures Consistent(Keydown(s, k))
    ensures OptionValues(Keydown(s, k).options) == OptionValues(s.options)
    ensures Mirrors(s) ==> Mirrors(Keydown(s, k))
  {
    var i := s.focus.i;
    var s1 := if IsActivation(k) then ToggleOption(s, i) else s;
    if IsActivation(k) { ToggleKeeps(s, i); }
    assert Keydown(s, k) == OptionListKeydown(s1, i, k);
    OptionListKeeps(s1, i, k);
  }

  lemma KeydownKeeps(s: State, k: Key)
    requires Consistent(s)
    ensures Consistent(Keydown(s, k))
    ensures OptionValues(Keydown(s, k).options) == OptionValues(s.options)
    ensures Mirrors(s) && !RemovesToggledTag(s, Key(k)) ==> Mirrors(Keydown(s, k))
  {
    match s.focus {
      case Elsewhere =>
      case Field => FieldKeydownKeeps(s, k);
      case OnRemove(_) => RemoveKeydownKeeps(s, k);
      case OnOption(_) => OptionKeydownKeeps(s, k);
    }
  }

  // ---------------------------------------------------------------------------
  // Every transition keeps the state well formed, consistent or not

  lemma TagRemovedWellFormed(s: State, k: nat, text: string)
    requires WellFormed(s) && k < |s.tags|
    ensures WellFormed(TagRemoved(s, k, text))
  {
    TagIdsRemove(s.tags, k, s.nextTag);
  }

  lemma ToggleWellFormed(s: State, i: nat)
    requires WellFormed(s) && i < |s.options|
    ensures WellFormed(ToggleOption(s, i))
  {
    var o := s.options[i];
    if o.selected {
      var s1 := s.(options := s.options[i := o.(selected := false, ariaSelected := Some(false))],
                   native := SetNative(s.native, o.value, false));
      assert WellFormed(s1);
      match Find(TagValues(s.tags), o.value) {
        case None =>
        case Some(k) => TagRemovedWellFormed(s1, k, o.text);
      }
    } else {
      TagSetAppend(s.tags, Tag(s.nextTag, o.value, o.text, ByToggle(true)));
    }
  }

  lemma RemoveWellFormed(s: State, id: nat)
    requires WellFormed(s) && id in TagIds(s.tags)
    ensures WellFormed(RemoveTag(s, id))
  {
    RemoveShape(s, id);
    var k := Find(TagIds(s.tags), id).value;
    var t := s.tags[k];
    var options := match RemovedOption(s, t)
      case None => s.options
      case Some(oi) => s.options[oi := Deselected(s.options[oi])];
    TagRemovedWellFormed(s.(options := options,
                            native := SetNative(s.native, t.value, t.origin.ByToggle? && t.origin.captured)), k, t.text);
  }

  lemma OptionKeydownWellFormed(s: State, k: Key)
    requires WellFormed(s) && s.focus.OnOption?
    ensures WellFormed(Keydown(s, k))
  {
    var i := s.focus.i;
    var s1 := if IsActivation(k) then ToggleOption(s, i) else s;
    if IsActivation(k) { ToggleWellFormed(s, i); }
    assert Keydown(s, k) == OptionListKeydown(s1, i, k);
  }

  lemma KeydownWellFormed(s: State, k: Key)
    requires WellFormed(s)
    ensures WellFormed(Keydown(s, k))
  {
    match s.focus {
      case Elsewhere =>
      case Field =>
      case OnRemove(id) => if IsActivation(k) { RemoveWellFormed(s, id); }
      case OnOption(i) => OptionKeydownWellFormed(s, k);
    }
  }

  lemma StepWellFormed(s: State, e: Event)
    requires WellFormed(s) && Enabled(s, e)
    ensures WellFormed(Step(s, e))
  {
    match e {
      case OptionClick(i) => ToggleWellFormed(s, i);
      case RemoveClick(id) => RemoveWellFormed(s, id);
      case Key(k) => KeydownWellFormed(s, k);
      case _ =>
    }
  }

  /** Every event keeps the widget consistent: tags in one-to-one correspondence with the
      selected options, the placeholder shown exactly when there are no tags, and
      `aria-expanded`, classes and tabindexes in step. The native mirror is kept too,
      except by the remove handler of a tag made by `toggleOption`. */
  lemma FocusCheckKeeps(s: State)
    requires Consistent(s) && s.focusChecks > 0
    ensures Consistent(FocusCheck(s))
    ensures Mirrors(s) ==> Mirrors(FocusCheck(s))
  {
    if s.focus.Elsewhere? && s.panel.targetExpanded {
      SetOpenKeeps(s.(focusChecks := s.focusChecks - 1), false);
    }
  }

  lemma OpenFocusKeeps(s: State)
    requires Consistent(s) && s.openFocusTimers > 0
    ensures Consistent(OpenFocus(s))
    ensures Mirrors(s) ==> Mirrors(OpenFocus(s))
  {
    if |s.options| > 0 {
      FocusToKeeps(s.(openFocusTimers := s.openFocusTimers - 1), OnOption(0));
    }
  }

  lemma StepKeeps(s: State, e: Event)
    requires Consistent(s) && Enabled(s, e)
    ensures Consistent(Step(s, e))
    ensures Mirrors(s) && !RemovesToggledTag(s, e) ==> Mirrors(Step(s, e))
  {
    match e
    case FieldClick => SetOpenKeeps(s, !s.panel.targetExpanded);
    case OptionClick(i) => ToggleKeeps(s, i);
    case RemoveClick(id) => RemoveKeeps(s, id);
    case Key(k) => KeydownKeeps(s, k);
    case FocusCheckFires => FocusCheckKeeps(s);
    case OpenFocusFires => OpenFocusKeeps(s);
    case FocusMoves(f) => FocusToKeeps(s, f);
  }

  // ---------------------------------------------------------------------------
  // Runs of events

  /** Runs a sequence of events; None when one of them cannot happen in the state it meets. */
  function Run(s: State, es: seq<Event>): (r: Option<State>)
    requires WellFormed(s)
    ensures r.Some? ==> WellFormed(r.value)
    decreases |es|
  {
    if es == [] then Some(s)
    else if !Enabled(s, es[0]) then None
    else StepWellFormed(s, es[0]); Run(Step(s, es[0]), es[1..])
  }

  /** No event of the run executes the remove handler of a tag made by `toggleOption`. */
  predicate KeepsToggledTags(s: State, es: seq<Event>)
    requires WellFormed(s)
    decreases |es|
  {
    if es == [] || !Enabled(s, es[0]) then true
    else !RemovesToggledTag(s, es[0]) && (StepWellFormed(s, es[0]); KeepsToggledTags(Step(s, es[0]), es[1..]))
  }

  lemma {:induction false} RunKeeps(s: State, es: seq<Event>)
    requires Consistent(s)
    ensures Run(s, es).Some? ==> Consistent(Run(s, es).value)
    ensures Mirrors(s) && KeepsToggledTags(s, es) && Run(s, es).Some? ==> Mirrors(Run(s, es).value)
    decreases |es|
  {
    if es != [] && Enabled(s, es[0]) {
      StepWellFormed(s, es[0]);
      StepKeeps(s, es[0]);
      RunKeeps(Step(s, es[0]), es[1..]);
    }
  }

  // ---------------------------------------------------------------------------
  // Initialisation

  /** The set of values of the options from index `from` on that carry `selected`. */
  function SelectedFrom(options: seq<Opt>, from: nat): set<string> {
    set j | from <= j < |options| && options[j].selected :: options[j].value
  }

  /** The initial tags carry consecutive ids from `id`, one per selected option from
      `from` on, in option order, each with its option's value and text. */
  lemma {:induction false} InitialTagsFacts(options: seq<Opt>, from: nat, id: nat)
    requires from <= |options|
    ensures forall k :: 0 <= k < |InitialTags(options, from, id)| ==> InitialTags(options, from, id)[k].id == id + k
    ensures forall k :: 0 <= k < |InitialTags(options, from, id)| ==>
              var t := InitialTags(options, from, id)[k];
              && t.origin.AtInit? && from <= t.origin.option < |options|
              && options[t.origin.option].selected
              && t.value == options[t.origin.option].value
              && t.text == options[t.origin.option].text
    ensures forall a, b :: 0 <= a < b < |InitialTags(options, from, id)| ==>
              InitialTags(options, from, id)[a].origin.option < InitialTags(options, from, id)[b].origin.option
    decreases |options| - from
  {
    if from < |options| {
      var next := if options[from].selected then id + 1 else id;
      InitialTagsFacts(options, from + 1, next);
      var rest := InitialTags(options, from + 1, next);
      var r := InitialTags(options, from, id);
      if options[from].selected {
        assert r == [Tag(id, options[from].value, options[from].text, AtInit(from))] + rest;
        assert forall k :: 1 <= k < |r| ==> r[k] == rest[k - 1];
      } else {
        assert r == rest;
      }
    }
  }

  /** The values of the initial tags from `from` on are the selected values from there. */
  lemma {:induction false} InitialTagsValues(options: seq<Opt>, from: nat, id: nat)
    requires from <= |options|
    ensures TagValueSet(InitialTags(options, from, id)) == SelectedFrom(options, from)
    decreases |options| - from
  {
    if from < |options| {
      var id' := if options[from].selected then id + 1 else id;
      InitialTagsValues(options, from + 1, id');
      var rest := InitialTags(options, from + 1, id');
      var r := InitialTags(options, from, id);
      if options[from].selected {
        assert r == [Tag(id, options[from].value, options[from].text, AtInit(from))] + rest;
        assert TagValueSet(r) == {options[from].value} + TagValueSet(rest) by {
          forall x | x in TagValueSet(r) ensures x in {options[from].value} + TagValueSet(rest) {
            var k :| 0 <= k < |r| && r[k].value == x;
            if k > 0 { assert rest[k - 1].value == x; }
          }
          forall x | x in TagValueSet(rest) ensures x in TagValueSet(r) {
            var k :| 0 <= k < |rest| && rest[k].value == x;
            assert r[k + 1].value == x;
          }
          assert r[0].value == options[from].value;
        }
        assert SelectedFrom(options, from) == {options[from].value} + SelectedFrom(options, from + 1);
      } else {
        assert SelectedFrom(options, from) == SelectedFrom(options, from + 1);
      }
    } else {
      assert SelectedFrom(options, from) == {};
    }
  }

  /** Initialisation makes a consistent widget from any markup whose option values differ,
      whose options list is hidden and whose placeholder (if any) shows exactly when no
      option is selected; and it mirrors the native `<select>` when the markup does. */
  lemma InitConsistent(markup: seq<Opt>, native: seq<NativeOpt>, placeholder: Option<bool>, announcer: Option<string>)
    requires Distinct(OptionValues(markup))
    requires placeholder.Some? ==> placeholder.value == (forall i :: 0 <= i < |markup| ==> !markup[i].selected)
    ensures Consistent(Init(markup, native, placeholder, announcer, false, false))
    ensures (forall i :: 0 <= i < |markup| ==> NativeSelected(native, markup[i].value) != Some(!markup[i].selected)) ==>
              Mirrors(Init(markup, native, placeholder, announcer, false, false))
  {
    var s := Init(markup, native, placeholder, announcer, false, false);
    InitialTagsFacts(markup, 0, 0);
    InitialTagsValues(markup, 0, 0);
    SelectedWithTabindex(markup, -1);
    assert SelectedFrom(markup, 0) == SelectedValues(markup);
    forall a, b | 0 <= a < b < |s.tags| ensures TagValues(s.tags)[a] != TagValues(s.tags)[b] {
      ValuesDiffer(markup, s.tags[a].origin.option, s.tags[b].origin.option);
    }
    if placeholder.Some? {
      if |s.tags| > 0 {
        assert s.tags[0].value in TagValueSet(s.tags);
      } else {
        forall i | 0 <= i < |markup| ensures !markup[i].selected {
          var v := markup[i].value;
          assert markup[i].selected ==> v in SelectedValues(markup);
        }
      }
    }
  }

  lemma InitWellFormed(markup: seq<Opt>, native: seq<NativeOpt>, placeholder: Option<bool>,
                       announcer: Option<string>, active: bool, show: bool)
    ensures WellFormed(Init(markup, native, placeholder, announcer, active, show))
  {
    InitialTagsFacts(markup, 0, 0);
  }

  /** Whatever the markup, each initial tag names a selected option, in option order,
      and every selected option gets exactly one. */
  lemma InitTags(markup: seq<Opt>, native: seq<NativeOpt>, placeholder: Option<bool>,
                 announcer: Option<string>, active: bool, show: bool)
    ensures var s := Init(markup, native, placeholder, announcer, active, show);
      && TagValueSet(s.tags) == SelectedValues(markup)
      && (forall k :: 0 <= k < |s.tags| ==> s.tags[k].origin.AtInit? && s.tags[k].origin.option < |markup|
                                            && markup[s.tags[k].origin.option].selected)
      && (forall a, b :: 0 <= a < b < |s.tags| ==> s.tags[a].origin.option < s.tags[b].origin.option)
      && (PanelInStep(s) <==> !active && !show)
  {
    InitialTagsFacts(markup, 0, 0);
    InitialTagsValues(markup, 0, 0);
    assert SelectedFrom(markup, 0) == SelectedValues(markup);
  }

  // ---------------------------------------------------------------------------
  // Round trip and the one place the native mirror breaks

  /** Selecting an unselected option appends its tag at the end; deselecting it again
      removes that very tag. */
  lemma ToggleTwiceTags(s: State, i: nat)
    requires Consistent(s) && i < |s.options| && !s.options[i].selected
    ensures var s1 := ToggleOption(s, i);
      && s1.options[i].selected
      && Find(TagValues(s1.tags), s.options[i].value) == Some(|s.tags|)
      && s1.tags == s.tags + [Tag(s.nextTag, s.options[i].value, s.options[i].text, ByToggle(true))]
  {
    var o := s.options[i];
    var s1 := ToggleOption(s, i);
    ToggleShape(s, i);
    SelectedHolder(s.options, i);
    TagValuesIn(s.tags, o.value);
    TagSetAppend(s.tags, Tag(s.nextTag, o.value, o.text, ByToggle(true)));
    var f := Find(TagValues(s1.tags), o.value);
    assert TagValues(s1.tags)[|s.tags|] == o.value;
    assert forall j :: 0 <= j < |s.tags| ==> TagValues(s1.tags)[j] == TagValues(s.tags)[j];
  }

  /** Selecting an unselected option and then deselecting it puts the tags, the
      placeholder and the classes back; only `aria-selected` is now written, and one
      tag id has been used. The native mirror is back too when it was in step. */
  lemma ToggleTwice(s: State, i: nat)
    requires Consistent(s) && i < |s.options| && !s.options[i].selected
    ensures var r := ToggleOption(ToggleOption(s, i), i);
      && r.tags == s.tags && r.placeholder == s.placeholder && r.nextTag == s.nextTag + 1
      && r.options == s.options[i := s.options[i].(ariaSelected := Some(false))]
  {
    var o := s.options[i];
    var s1 := ToggleOption(s, i);
    ToggleTwiceTags(s, i);
    ToggleShape(s1, i);
    var r := ToggleOption(s1, i);
    assert r.tags == RemoveAt(s1.tags, |s.tags|);
    assert r.tags == s.tags;
  }

  lemma ToggleTwiceNative(s: State, i: nat, w: string)
    requires Consistent(s) && Mirrors(s) && i < |s.options| && !s.options[i].selected
    ensures NativeSelected(ToggleOption(ToggleOption(s, i), i).native, w) == NativeSelected(s.native, w)
  {
    var o := s.options[i];
    var s1 := ToggleOption(s, i);
    ToggleTwiceTags(s, i);
    ToggleShape(s, i);
    ToggleShape(s1, i);
    NativeAfterSet(s.native, o.value, true, w);
    NativeAfterSet(s1.native, o.value, false, w);
  }

  /** The remove button of a tag made by `toggleOption` writes the `isSelected` it
      captured (true) into the native `<select>`: with a single option "a", selecting it
      and then removing its tag leaves the option deselected and its native `<option>`
      selected. This is the one transition `StepKeeps` does not promise the mirror for. */
  lemma ToggledTagRemovalDesyncs()
    ensures var s0 := Init([Opt("a", "A", false, None, 0)], [NativeOpt("a", false)], None, None, false, false);
      && Consistent(s0) && Mirrors(s0)
      && Run(s0, [OptionClick(0), RemoveClick(0)]).Some?
      && var s2 := Run(s0, [OptionClick(0), RemoveClick(0)]).value;
         && Consistent(s2) && !s2.options[0].selected && NativeSelected(s2.native, "a") == Some(true)
         && !Mirrors(s2)
  {
    var markup := [Opt("a", "A", false, None, 0)];
    var s0 := Init(markup, [NativeOpt("a", false)], None, None, false, false);
    InitConsistent(markup, [NativeOpt("a", false)], None, None);
    assert NativeValues([NativeOpt("a", false)]) == ["a"];
    assert NativeSelected(s0.native, "a") == Some(false);
    assert s0.tags == [];
    var s1 := ToggleOption(s0, 0);
    assert s1.tags == [Tag(0, "a", "A", ByToggle(true))];
    assert TagIds(s1.tags) == [0];
    assert Step(s0, OptionClick(0)) == s1;
    StepWellFormed(s0, OptionClick(0));
    var s2 := RemoveTag(s1, 0);
    assert OptionValues(s1.options) == ["a"];
    assert NativeValues(s1.native) == ["a"];
    assert s2.native == [NativeOpt("a", true)];
    assert NativeValues(s2.native) == ["a"];
    assert Run(s0, [OptionClick(0), RemoveClick(0)]) == Run(s1, [RemoveClick(0)]);
    assert Run(s1, [RemoveClick(0)]) == Run(s2, []);
    RunKeeps(s0, [OptionClick(0), RemoveClick(0)]);
  }

  // ---------------------------------------------------------------------------
  // The widget as an object updated in place

  class MultiSelect {
    var fieldActive: bool
    var optionsShow: bool
    var ariaExpanded: Option<bool>
    var options: seq<Opt>
    var native: seq<NativeOpt>
    var tags: seq<Tag>
    var nextTag: nat
    var placeholder: Option<bool>
    var announcer: Option<string>
    var focus: Focus
    var focusChecks: nat
    var openFocusTimers: nat

    function View(): State
      reads this
    {
      State(Expandable.Disclosure(fieldActive, optionsShow, ariaExpanded), options, native, tags, nextTag,
            placeholder, announcer, focus, focusChecks, openFocusTimers)
    }

    ghost predicate Valid()
      reads this
    {
      WellFormed(View())
    }

    constructor (markup: seq<Opt>, native: seq<NativeOpt>, placeholder: Option<bool>,
                 announcer: Option<string>, active: bool, show: bool)
      ensures Valid() && View() == Init(markup, native, placeholder, announcer, active, show)
    {
      fieldActive, optionsShow, ariaExpanded := active, show, Some(false);
      options := markup;
      this.native := native;
      this.placeholder := placeholder;
      this.announcer := announcer;
      focus := Elsewhere;
      focusChecks, openFocusTimers := 0, 0;
      new;
      SetTabindexAll(-1);
      InitTagList(markup);
      assert View() == Init(markup, native, placeholder, announcer, active, show);
      InitWellFormed(markup, native, placeholder, announcer, active, show);
    }

    /** The initial `selectedOptions.forEach(createTag)`: one tag per option selected in the markup. */
    method InitTagList(markup: seq<Opt>)
      modifies this`tags, this`nextTag
      ensures tags == InitialTags(markup, 0, 0) && nextTag == |tags|
    {
      tags, nextTag := [], 0;
      var j := 0;
      while j < |markup|
        invariant 0 <= j <= |markup| && nextTag == |tags|
        invariant tags + InitialTags(markup, j, |tags|) == InitialTags(markup, 0, 0)
        modifies this`tags, this`nextTag
      {
        assert InitialTags(markup, j, |tags|) ==
          if markup[j].selected
          then [Tag(|tags|, markup[j].value, markup[j].text, AtInit(j))] + InitialTags(markup, j + 1, |tags| + 1)
          else InitialTags(markup, j + 1, |tags|);
        if markup[j].selected {
          tags := tags + [Tag(nextTag, markup[j].value, markup[j].text, AtInit(j))];
          nextTag := nextTag + 1;
        }
        j := j + 1;
      }
      assert tags + InitialTags(markup, j, |tags|) == tags + [];
    }

    /** `optionItems.forEach(item => item.setAttribute('tabindex', t))`. */
    method SetTabindexAll(t: int)
      modifies this`options
      ensures options == WithTabindex(old(options), t)
    {
      var j := 0;
      while j < |options|
        invariant 0 <= j <= |options| && |options| == |old(options)|
        invariant forall m :: 0 <= m < j ==> options[m] == old(options)[m].(tabindex := t)
        invariant forall m :: j <= m < |options| ==> options[m] == old(options)[m]
      {
        options := options[j := options[j].(tabindex := t)];
        j := j + 1;
      }
    }

    /** `el.focus()` from the widget's own code, with the focus-out check it triggers. */
    method MoveFocus(f: Focus)
      modifies this`focus, this`focusChecks
      ensures View() == FocusTo(old(View()), f)
    {
      if focus != f && !focus.Elsewhere? {
        focusChecks := focusChecks + 1;
      }
      focus := f;
    }

    /** The open or the close branch of the field's handlers. */
    method ShowOptions(open: bool)
      modifies this`fieldActive, this`optionsShow, this`ariaExpanded, this`options
      ensures View() == SetOpen(old(View()), open)
    {
      fieldActive := open;
      ariaExpanded := Some(open);
      optionsShow := open;
      SetTabindexAll(if open then 0 else -1);
    }

    /** `nativeOption.selected = b` on the first native option with value v. */
    method WriteNative(v: string, b: bool)
      modifies this`native
      ensures native == SetNative(old(native), v, b)
    {
      var j := FindIndex(NativeValues(native), v);
      if j.Some? {
        native := native[j.value := native[j.value].(selected := b)];
      }
    }

    /** `tag.remove()` on tag k and what follows it: placeholder and announcement. */
    method DropTag(k: nat, text: string)
      requires k < |tags|
      modifies this`tags, this`placeholder, this`announcer, this`focus
      ensures View() == TagRemoved(old(View()), k, text)
    {
      if focus == OnRemove(tags[k].id) {
        focus := Elsewhere;
      }
      tags := tags[..k] + tags[k + 1..];
      if |tags| == 0 && placeholder.Some? {
        placeholder := Some(true);
      }
      if announcer.Some? {
        announcer := Some(Announcement(text, false));
      }
    }

    /** `toggleOption(option i)`. */
    method Toggle(i: nat)
      requires i < |options|
      modifies this`options, this`native, this`tags, this`nextTag, this`placeholder, this`announcer, this`focus
      ensures View() == ToggleOption(old(View()), i)
    {
      ToggleShape(View(), i);
      var o := options[i];
      var sel := !o.selected;
      options := options[i := o.(selected := sel, ariaSelected := Some(sel))];
      WriteNative(o.value, sel);
      if sel {
        if placeholder.Some? {
          placeholder := Some(false);
        }
        tags := tags + [Tag(nextTag, o.value, o.text, ByToggle(true))];
        nextTag := nextTag + 1;
        if announcer.Some? {
          announcer := Some(Announcement(o.text, true));
        }
      } else {
        var k := FindIndex(TagValues(tags), o.value);
        if k.Some? {
          DropTag(k.value, o.text);
        }
      }
    }

    /** The click handler of the remove button of the tag with this id. */
    method Remove(id: nat)
      requires Valid() && id in TagIds(tags)
      modifies this`options, this`native, this`tags, this`placeholder, this`announcer, this`focus
      ensures View() == RemoveTag(old(View()), id)
    {
      RemoveShape(View(), id);
      var k := FindIndex(TagIds(tags), id);
      var t := tags[k.value];
      DeselectFor(t);
      match t.origin {
        case AtInit(_) => WriteNative(t.value, false);
        case ByToggle(captured) => WriteNative(t.value, captured);
      }
      DropTag(k.value, t.text);
    }

    /** The remove handler's deselection: the captured option of a tag made at
        initialisation, the first option with the tag's value for one made by `toggleOption`. */
    method DeselectFor(t: Tag)
      requires t.origin.AtInit? ==> t.origin.option < |options|
      modifies this`options
      ensures options == match RemovedOption(old(View()), t)
                         case None => old(options)
                         case Some(oi) => old(options)[oi := Deselected(old(options)[oi])]
    {
      match t.origin {
        case AtInit(oi) =>
          options := options[oi := Deselected(options[oi])];
        case ByToggle(_) =>
          var oi := FindIndex(OptionValues(options), t.value);
          if oi.Some? {
            options := options[oi.value := Deselected(options[oi.value])];
          }
      }
    }

    method FieldKey(k: Key)
      modifies this`fieldActive, this`optionsShow, this`ariaExpanded, this`options, this`openFocusTimers
      ensures View() == FieldKeydown(old(View()), k)
    {
      if IsActivation(k) {
        ShowOptions(!optionsShow);
      } else if k == ArrowDown && !fieldActive {
        ShowOptions(true);
        openFocusTimers := openFocusTimers + 1;
      }
    }

    method FieldClick()
      requires Valid()
      modifies this
      ensures Valid() && View() == Step(old(View()), Event.FieldClick)
    {
      ShowOptions(!optionsShow);
    }

    method OptionClick(i: nat)
      requires Valid() && i < |options|
      modifies this
      ensures Valid() && View() == Step(old(View()), Event.OptionClick(i))
    {
      ToggleWellFormed(View(), i);
      Toggle(i);
    }

    method RemoveClick(id: nat)
      requires Valid() && id in TagIds(tags)
      modifies this
      ensures Valid() && View() == Step(old(View()), Event.RemoveClick(id))
    {
      RemoveWellFormed(View(), id);
      Remove(id);
    }

    method Keydown(k: Key)
      requires Valid()
      modifies this
      ensures Valid() && View() == Step(old(View()), Event.Key(k))
    {
      KeydownWellFormed(View(), k);
      match focus {
        case Elsewhere =>
        case Field => FieldKey(k);
        case OnRemove(id) =>
          if IsActivation(k) {
            Remove(id);
          }
          FieldKey(k);
        case OnOption(i) => OptionKey(k);
      }
    }

    /** A keydown on an option: its own handler, then the list's handlers. */
    method OptionKey(k: Key)
      requires WellFormed(View()) && focus.OnOption?
      modifies this
      ensures View() == Step(old(View()), Event.Key(k))
    {
      ghost var s := View();
      var i := focus.i;
      if IsActivation(k) {
        Toggle(i);
      }
      ghost var s1 := View();
      assert s1 == if IsActivation(k) then ToggleOption(s, i) else s;
      assert Step(s, Event.Key(k)) == OptionListKeydown(s1, i, k);
      ListKey(i, k);
    }

    /** `arrowNavigation` and the Escape handler on the options list. */
    method ListKey(i: nat, k: Key)
      requires i < |options|
      modifies this`fieldActive, this`optionsShow, this`ariaExpanded, this`options, this`focus, this`focusChecks
      ensures View() == OptionListKeydown(old(View()), i, k)
    {
      var out := Navigation.HandleKeydown(|options|, Some(i), k, Navigation.Defaults);
      if out.moveTo.Some? {
        MoveFocus(OnOption(out.moveTo.value));
      }
      if k == Escape {
        ShowOptions(false);
        MoveFocus(Field);
      }
    }

    method FocusCheckFires()
      requires Valid() && focusChecks > 0
      modifies this
      ensures Valid() && View() == Step(old(View()), Event.FocusCheckFires)
    {
      focusChecks := focusChecks - 1;
      if focus.Elsewhere? && optionsShow {
        ShowOptions(false);
      }
    }

    method OpenFocusFires()
      requires Valid() && openFocusTimers > 0
      modifies this
      ensures Valid() && View() == Step(old(View()), Event.OpenFocusFires)
    {
      openFocusTimers := openFocusTimers - 1;
      if |options| > 0 {
        MoveFocus(OnOption(0));
      }
    }

    method FocusMoves(f: Focus)
      requires Valid() && (f.OnOption? ==> f.i < |options|) && (f.OnRemove? ==> f.id in TagIds(tags))
      modifies this
      ensures Valid() && View() == Step(old(View()), Event.FocusMoves(f))
    {
      MoveFocus(f);
    }
  }
}
