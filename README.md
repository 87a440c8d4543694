# Keyboard widgets and page state machines, modelled in Dafny

This project models two parts of a portfolio site.

The first part is the keyboard and ARIA widget toolkit in
`system-guide/assets/scripts/common/a11y.js`:
- `trapFocus`;
- `arrowNavigation`;
- `toggleExpandable`;
- the Escape and focus-out helpers;
- the single-select dropdown `initDropdown`;
- the multi-select `initMultiSelect`, with its tag chips, its hidden native `<select>` mirror, its placeholder and its live announcer.

The second part is the small state machines of the page script `assets/js/app.js`:
- the loading counter;
- the skill-drop queue;
- the workflow timeline's active item and its two background layers;
- the tier choice of `applyScaling`;
- the run-once guards of the mindset chart.

## How the model is built

Every stateful part is written twice:
- as a value: a `State` datatype and one transition function per DOM event, with `Step` and `Run` over event sequences;
- as a `class` whose fields are the variables and elements the source updates in place. Each method is proved to perform exactly the corresponding transition (`View() == Step(old(View()), e)`).

The properties are lemmas about the transition functions:
- invariants kept by every event and by every run;
- round trips;
- closed forms of repeated steps;
- concrete runs that show where an invariant does not hold.

Timers (`setTimeout`), animation frames and image loads are not clocks here. Each becomes an explicit event, and a counter in the state records how many are pending.

Focus is a datatype per widget. Focus moved by the user or the browser is an event of its own. When focus leaves an element inside a widget, one focus-out check is scheduled.

Modules, one file each:
- `Common`: `Option`, `Key`, linear search;
- `Navigation`: `arrowNavigation`;
- `FocusTrap`: `trapFocus`;
- `Expandable`: `toggleExpandable`;
- `Dropdown`: `initDropdown`, with `escapeHandler` and `handleFocusOut` as they are bound there;
- `MultiSelect`: `initMultiSelect`, with the same two helpers;
- `Loader`, `SkillDrop`, `Timeline`, `Scaling`, `Mindset`: the page script.

## Model

| member | source | states |
|---|---|---|
| Common.Find | system-guide/assets/scripts/common/a11y.js:132 | the result is the first index holding the value; it is None exactly when the value does not occur |
| Common.FindIndex | system-guide/assets/scripts/common/a11y.js:625 | the search loop returns the same index as `Find` |
| Navigation.NextIndex | system-guide/assets/scripts/common/a11y.js:135-156 | forward gives current+1; past the end it gives 0 with loop and stays put without; backward is symmetric (length-1 or 0); Home gives 0 and End gives length-1; the result is always below length |
| Navigation.HandleKeydown | system-guide/assets/scripts/common/a11y.js:130-167 | the default is prevented iff the focused element is an item and the key is handled; focus moves (and `onNavigate` runs) iff the computed index differs from the current one |
| Navigation.LoopIsModular | system-guide/assets/scripts/common/a11y.js:139-150 | with loop, one forward step is +1 mod n and one backward step is -1 mod n |
| Navigation.LoopStepsAreInverse | system-guide/assets/scripts/common/a11y.js:139-150 | with loop, a backward step undoes a forward step and the other way round |
| Navigation.PressesAdd | system-guide/assets/scripts/common/a11y.js:130-167 | p+q presses of a key lead to the same item as p presses followed by q presses |
| Navigation.ForwardWithin | system-guide/assets/scripts/common/a11y.js:139-144 | forward presses that stay inside the list advance exactly one item each |
| Navigation.ForwardClamps | system-guide/assets/scripts/common/a11y.js:139-144 | without loop, p forward presses reach min(current+p, n-1) |
| Navigation.BackwardClamps | system-guide/assets/scripts/common/a11y.js:145-150 | without loop, p backward presses reach max(current-p, 0) |
| Navigation.ForwardCycle | system-guide/assets/scripts/common/a11y.js:139-144 | with loop, n forward presses return to the starting item |
| FocusTrap.Bind | system-guide/assets/scripts/common/a11y.js:26-56 | nothing is bound iff there is no focusable element; otherwise the first one is focused |
| FocusTrap.HandleKeydown | system-guide/assets/scripts/common/a11y.js:33-50 | only Tab is handled; Tab from outside goes to the first element; Shift+Tab on the first goes to the last; Tab on the last goes to the first; every other Tab is left to the browser; the default is prevented exactly when the trap moves focus |
| FocusTrap.TabCycles | system-guide/assets/scripts/common/a11y.js:33-50 | with the trap bound, and the browser tabbing through the focusable list in document order, Tab and Shift+Tab from any element stay inside and move cyclically (i+1 mod n, i-1 mod n) |
| Expandable.Notification | system-guide/assets/scripts/common/a11y.js:214-218 | `onExpand` runs iff the new state is open and it was supplied; `onCollapse` runs iff the new state is closed and it was supplied |
| Expandable.ToggledInStep | system-guide/assets/scripts/common/a11y.js:197-206 | a toggle keeps trigger class, target class and `aria-expanded` in step and flips the open state |
| Expandable.ToggledKeepsMismatch | system-guide/assets/scripts/common/a11y.js:197-206 | the classes flip independently: a pair that disagrees keeps disagreeing, and `aria-expanded` follows the trigger |
| Expandable.ToggledTwice | system-guide/assets/scripts/common/a11y.js:197-206 | two toggles restore both classes |
| Expandable.KeydownAction | system-guide/assets/scripts/common/a11y.js:232-248 | Enter and Space toggle; ArrowDown toggles and schedules focus on the first item only when closed; the default is prevented exactly when a toggle happens |
| Expandable.Expandable.Toggle | system-guide/assets/scripts/common/a11y.js:197-220 | the returned state is the negation of the trigger's class; the pair becomes `Toggled` of the old pair; the callback run is `Notification` of the new state |
| Expandable.Expandable.Click | system-guide/assets/scripts/common/a11y.js:224-230 | a click inside `.select__tag-remove` changes nothing; any other click toggles |
| Expandable.Expandable.Keydown | system-guide/assets/scripts/common/a11y.js:232-248 | performs `KeydownAction`: toggles exactly when it says so, otherwise changes nothing |
| Dropdown.InitInStep | system-guide/assets/scripts/common/a11y.js:319-320 | after initialisation every item has tabindex -1 and `aria-expanded` is false; the dropdown is in step iff the markup has neither `active` nor `show` |
| Dropdown.SelectMarksOnlyChosen | system-guide/assets/scripts/common/a11y.js:416-446 | after a click on item i, exactly item i is `selected` with `aria-selected` true and an active badge; every sibling is cleared; an item with a text also sets the button text and closes the list |
| Dropdown.SelectLastWins | system-guide/assets/scripts/common/a11y.js:418-428 | two selections leave the items as the second selection alone would |
| Dropdown.OpenListHasNoRovingTabindex | system-guide/assets/scripts/common/a11y.js:368-371 | an open list puts every item, not a single one, in the tab order |
| Dropdown.StepKeepsInStep | system-guide/assets/scripts/common/a11y.js:368-455 | every event keeps the classes, `aria-expanded` and the items' tabindexes in step (all 0 when open, all -1 when closed) |
| Dropdown.RunKeepsInStep | system-guide/assets/scripts/common/a11y.js:319-455 | after any sequence of events from an in-step start, `aria-expanded` matches the list's `show` class |
| Dropdown.EscapeCloses | system-guide/assets/scripts/common/a11y.js:391-399 | Escape on an item closes the dropdown and focuses the button |
| Dropdown.ActivationSelects | system-guide/assets/scripts/common/a11y.js:448-455 | Enter or Space on an item with a text selects only that item, closes the list and focuses the button |
| Dropdown.ArrowDownOpens | system-guide/assets/scripts/common/a11y.js:237-246 | ArrowDown on the closed button opens the list and schedules one timer; when it fires, the first item receives focus |
| Dropdown.FocusCheckClosesOutside | system-guide/assets/scripts/common/a11y.js:289-299 | a focus-out check leaves the dropdown closed iff focus is outside or the list was already hidden |
| Dropdown.Dropdown.constructor | system-guide/assets/scripts/common/a11y.js:309-320 | the fields equal `Init` of the markup |
| Dropdown.Dropdown.ButtonClick | system-guide/assets/scripts/common/a11y.js:224-230 | performs the `ButtonClick` transition and keeps the dropdown well formed |
| Dropdown.Dropdown.ItemClick | system-guide/assets/scripts/common/a11y.js:416-446 | performs the `ItemClick` transition |
| Dropdown.Dropdown.Keydown | system-guide/assets/scripts/common/a11y.js:232-248 | performs the `Key` transition: the button's handler, or the item's, list navigation and Escape handlers |
| Dropdown.Dropdown.FocusCheckFires | system-guide/assets/scripts/common/a11y.js:292-297 | performs the focus-out check transition |
| Dropdown.Dropdown.OpenFocusFires | system-guide/assets/scripts/common/a11y.js:242-244 | performs the transition of the ArrowDown timer |
| Dropdown.Dropdown.FocusMoves | system-guide/assets/scripts/common/a11y.js:289-299 | performs a user focus move, scheduling a focus-out check when focus leaves an inner element |
| MultiSelect.InitialTagsFacts | system-guide/assets/scripts/common/a11y.js:727-790 | the initial tags carry consecutive ids, one per selected option in option order, each with that option's value and text |
| MultiSelect.InitialTagsValues | system-guide/assets/scripts/common/a11y.js:727-790 | the set of the initial tags' values is exactly the set of the values of the options selected in the markup |
| MultiSelect.InitTags | system-guide/assets/scripts/common/a11y.js:727-790 | after initialisation the tag values are the selected options' values, each tag names a selected option, and tags are in option order; the panel is in step iff the markup has neither `active` nor `show` |
| MultiSelect.InitConsistent | system-guide/assets/scripts/common/a11y.js:482-483 | markup with distinct values, a hidden panel and a placeholder that matches "no option selected" gives a consistent widget; it mirrors the native select when the markup does |
| MultiSelect.ToggleShape | system-guide/assets/scripts/common/a11y.js:614-720 | `toggleOption` flips the option's `selected` and `aria-selected`, writes the new state to the native option; selecting appends one tag at the end and hides the placeholder; deselecting removes the value's tag |
| MultiSelect.ToggleKeeps | system-guide/assets/scripts/common/a11y.js:614-720 | `toggleOption` keeps tag values equal to the selected values, the placeholder shown iff no tag, the panel in step, and the native mirror |
| MultiSelect.RemoveShape | system-guide/assets/scripts/common/a11y.js:664-693 | a remove button deselects the captured option (initial tag) or the first option with its value (toggled tag), writes false or the captured `isSelected` into the native option and removes the tag |
| MultiSelect.RemoveKeeps | system-guide/assets/scripts/common/a11y.js:759-785 | removing a tag keeps the widget consistent; it keeps the native mirror unless the tag was made by `toggleOption` |
| MultiSelect.KeydownKeeps | system-guide/assets/scripts/common/a11y.js:492-595 | every keydown keeps the widget consistent, and keeps the mirror unless it runs a toggled tag's remove handler |
| MultiSelect.StepWellFormed | system-guide/assets/scripts/common/a11y.js:492-790 | every event keeps focus on an existing element and tag ids distinct |
| MultiSelect.StepKeeps | system-guide/assets/scripts/common/a11y.js:492-790 | every event keeps the widget consistent, and keeps the mirror unless it runs a toggled tag's remove handler |
| MultiSelect.RunKeeps | system-guide/assets/scripts/common/a11y.js:482-790 | any sequence of events keeps the widget consistent, and keeps the mirror when no toggled tag is removed |
| MultiSelect.ToggleTwiceTags | system-guide/assets/scripts/common/a11y.js:614-720 | selecting an unselected option appends its tag last, and deselecting then finds that very tag |
| MultiSelect.ToggleTwice | system-guide/assets/scripts/common/a11y.js:614-720 | selecting then deselecting restores the tags, the placeholder and the options except `aria-selected`; one tag id is used up |
| MultiSelect.ToggleTwiceNative | system-guide/assets/scripts/common/a11y.js:624-628 | with the mirror in step, selecting then deselecting restores every native option |
| MultiSelect.ToggledTagRemovalDesyncs | system-guide/assets/scripts/common/a11y.js:664-693 | selecting option "a" and removing its tag leaves the widget consistent, but the option deselected while its native option stays selected |
| MultiSelect.MultiSelect.constructor | system-guide/assets/scripts/common/a11y.js:469-483 | the fields equal `Init` of the markup, built by appending one tag per selected option in a loop |
| MultiSelect.MultiSelect.Toggle | system-guide/assets/scripts/common/a11y.js:614-720 | `toggleOption` updated in place: the option, the native option, the tag list, the placeholder and the announcer end as `ToggleOption` of the old state |
| MultiSelect.MultiSelect.Remove | system-guide/assets/scripts/common/a11y.js:664-693 | a remove handler updated in place: it deselects the tag's option, writes the native option, drops the tag and ends as `RemoveTag` of the old state |
| MultiSelect.MultiSelect.FieldClick | system-guide/assets/scripts/common/a11y.js:558-579 | performs the field-click transition: panel classes, `aria-expanded` and every option's tabindex flip together |
| MultiSelect.MultiSelect.OptionClick | system-guide/assets/scripts/common/a11y.js:583-587 | performs `toggleOption` on the option |
| MultiSelect.MultiSelect.RemoveClick | system-guide/assets/scripts/common/a11y.js:664-693 | performs the remove handler of the tag |
| MultiSelect.MultiSelect.Keydown | system-guide/assets/scripts/common/a11y.js:492-595 | performs the keydown transition: field, remove-button, option, navigation and Escape handlers |
| MultiSelect.MultiSelect.FocusCheckFires | system-guide/assets/scripts/common/a11y.js:545-555 | performs the focus-out check transition |
| MultiSelect.MultiSelect.OpenFocusFires | system-guide/assets/scripts/common/a11y.js:521-523 | performs the transition of the ArrowDown timer |
| MultiSelect.MultiSelect.FocusMoves | system-guide/assets/scripts/common/a11y.js:545-555 | performs a user focus move |
| Loader.TimeFor | assets/js/app.js:48-62 | the ready states jump `time` to 31, 72 and 100; the value is 100 iff the state is complete |
| Loader.StepKeeps | assets/js/app.js:11-62 | every event keeps `time` and the fill bar within 0..100 and at most one step chain pending |
| Loader.RunKeeps | assets/js/app.js:11-62 | any sequence of events keeps those bounds |
| Loader.StartsOnce | assets/js/app.js:48-53 | only the first `readystatechange` starts the animation, and it starts one chain |
| Loader.StepAdvances | assets/js/app.js:14-25 | a step below 100 raises `time` by exactly one and schedules the next step; at 100 it schedules `hideLoader` instead |
| Loader.StepsCount | assets/js/app.js:14-25 | n steps raise `time` by n and draw the bar at `time` + n - 1 |
| Loader.AnimationFinishes | assets/js/app.js:14-25 | left alone, the animation reaches 100, draws the full bar, schedules `hideLoader` once and stops |
| Loader.ReadyStateRewinds | assets/js/app.js:48-62 | an "interactive" at 90 moves `time` back to 72, and a "complete" during the animation leads to two `hideLoader` timers |
| Loader.LoadingScreen.AnimateScene | assets/js/app.js:14-25 | performs one `animateScene` call |
| Loader.LoadingScreen.ReadyStateChange | assets/js/app.js:48-62 | performs the `readystatechange` handler and keeps the bounds |
| Loader.LoadingScreen.StepTimerFires | assets/js/app.js:21 | performs the 10 ms step and keeps the bounds |
| Loader.LoadingScreen.HideTimerFires | assets/js/app.js:23 | consumes one pending `hideLoader` timer |
| SkillDrop.SkillListFacts | assets/js/app.js:1413-1425 | the skill list has eleven entries with distinct names |
| SkillDrop.DropKeeps | assets/js/app.js:1334-1370 | `dropNextSkill` keeps one element per dropped skill, in list order, never more than the list holds |
| SkillDrop.StepKeeps | assets/js/app.js:1135-1141 | every scroll callback and timer keeps that invariant, and the runner runs exactly while the drop is in progress |
| SkillDrop.RunKeeps | assets/js/app.js:1135-1141 | any sequence of events keeps the invariant, even when a second timer chain starts |
| SkillDrop.DropAdvances | assets/js/app.js:1334-1370 | a drop that may happen appends exactly one element for the next skill and raises the index by one; otherwise nothing changes |
| SkillDrop.StartOnceIdempotent | assets/js/app.js:1387-1436 | starting twice is starting once; the first start installs the eleven skills with the runner stopped |
| SkillDrop.PauseResume | assets/js/app.js:1372-1385 | before the engine exists pause and resume do nothing; afterwards pause stops the drop and the runner, resume restarts both, and a timer firing while paused drops nothing |
| SkillDrop.DropsCount | assets/js/app.js:1365-1369 | n timer firings while in progress raise the index by n and keep the earlier elements |
| SkillDrop.AllSkillsDrop | assets/js/app.js:1365-1369 | while the drop stays in progress, the timer chain drops all eleven skills in list order |
| SkillDrop.SecondChain | assets/js/app.js:1372-1378 | leaving and re-entering during a pending timer starts a second chain, yet every element still matches its skill |
| SkillDrop.Scene.DropNextSkill | assets/js/app.js:1334-1370 | performs `dropNextSkill` |
| SkillDrop.Scene.ResumeSkillDrop | assets/js/app.js:1372-1378 | performs `resumeSkillDrop` |
| SkillDrop.Scene.PauseSkillDrop | assets/js/app.js:1380-1385 | performs `pauseSkillDrop` |
| SkillDrop.Scene.StartSkillDropOnce | assets/js/app.js:1387-1436 | performs `startSkillDropOnce` |
| SkillDrop.Scene.DropTimerFires | assets/js/app.js:1367-1369 | performs the 600 ms timer |
| SkillDrop.Scene.OnEnter | assets/js/app.js:1135-1138 | starts once, then resumes |
| Timeline.FirstBand | assets/js/app.js:1239-1249 | the result is the lowest index whose box contains the trigger line; it is None iff no box does |
| Timeline.StepKeeps | assets/js/app.js:1176-1290 | every event keeps one flag per item, never both layers visible, and every pending swap between two different layers |
| Timeline.RunKeeps | assets/js/app.js:1176-1290 | any sequence of events keeps that invariant |
| Timeline.SetActiveMarks | assets/js/app.js:1176-1182 | the current index changes nothing; a new index becomes current and is the only active item |
| Timeline.SetActiveSwaps | assets/js/app.js:1201-1219 | a swap is queued iff the item has a non-empty `data-bg` that the layer to fade in does not contain; it fades from the showing layer to the other |
| Timeline.UrlContains | assets/js/app.js:1206-1212 | a layer set to `url(src)` contains `src`, so a second swap to it is skipped |
| Timeline.SwapFlips | assets/js/app.js:1208-1216 | a completed swap flips `showingTimelineBg1` exactly once, shows the new image on its layer and hides the other |
| Timeline.SwapKeepsInStep | assets/js/app.js:1208-1216 | a swap into the layer not showing leaves the visible layer the one the flag names |
| Timeline.VisibilityFollowsFlag | assets/js/app.js:1253-1269 | off screen no layer is visible; on screen exactly one is, bg1 iff `showingTimelineBg1` |
| Timeline.LoadSchedules | assets/js/app.js:1285-1290 | `load` activates item 0 and schedules the 300 ms timer, except on a page with no timeline item, where `setActive(0)` throws before the timer is set |
| Timeline.FrameOnce | assets/js/app.js:1235-1250 | while a frame is pending, further scrolls request nothing; the frame activates the first matching item and clears `ticking` |
| Timeline.OverlappingSwapsDesync | assets/js/app.js:1201-1219 | two `setActive` calls before the first image loads both fade into bg2; afterwards the flag says bg1 while bg2 is visible |
| Timeline.Workflow.Includes | assets/js/app.js:1206 | the substring search returns `Contains` |
| Timeline.Workflow.SetActive | assets/js/app.js:1176-1219 | performs `setActive` |
| Timeline.Workflow.SwapFires | assets/js/app.js:1208-1216 | performs a completed swap |
| Timeline.Workflow.HandleTimelineScroll | assets/js/app.js:1235-1238 | performs `handleTimelineScroll` |
| Timeline.Workflow.FrameFires | assets/js/app.js:1239-1249 | performs the requested frame: the first-match loop and `setActive` |
| Timeline.Workflow.UpdateBackgroundVisibility | assets/js/app.js:1253-1269 | performs `updateBackgroundVisibility` |
| Scaling.Symmetric | assets/js/app.js:648-695 | the look depends on the distance alone, so it is symmetric around the open project |
| Scaling.Monotone | assets/js/app.js:648-695 | further from the open project a title is never larger, more opaque or sharper |
| Scaling.OnlyActiveIsSharp | assets/js/app.js:652-661 | exactly the open project gets scale 1, opacity 1 and no blur |
| Scaling.ApplyScaling | assets/js/app.js:648-695 | the loop gives each title the tier of its distance (1/1/0, 0.95/0.7/1, 0.9/0.5/2, 0.85/0.3/4); every other title is scaled below 1 |
| Mindset.UpdateKeeps | assets/js/app.js:1126-1134 | an `onUpdate` keeps the guards in agreement and does nothing once the chart has been requested |
| Mindset.DrawnAtMostOnce | assets/js/app.js:1115-1134 | however the page is scrolled the chart is drawn at most once; it is requested iff some progress went past the start ratio plus 0.02 |
| Mindset.ChartGuard | assets/js/app.js:1449-1452 | `data-initiated` alone makes a second `drawMindsetChart` do nothing |
| Mindset.MindsetChart.DrawMindsetChart | assets/js/app.js:1449-1452 | performs the guard of `drawMindsetChart` |
| Mindset.MindsetChart.OnUpdate | assets/js/app.js:1126-1134 | performs `onUpdate` and keeps the guards in agreement |

## Left out

- Animation, physics and charts. The GSAP tweens, ScrollTrigger configuration, Matter.js bodies and engine, and d3 drawing are calls into libraries not part of this model. Only the flags and counters that guard them are modelled.
- The `sync` animation-frame loop of the physics scene. The random `x` position and class of each badge in `dropNextSkill` are not modelled either. A body is an opaque token.
- The effects of `hideLoader` on the page. Its timer is counted but its body is not modelled.
- The scroll restoration through `sessionStorage`, the footer bubbles (random) and the reload on resize. These are I/O and randomness.
- `toggleProject`/`openNewProject` and the resize re-measure handler are not part of this model. Their state changes happen inside animation callbacks.
- The `resetScaling` tween and the tween parameters of `applyScaling` (duration, easing, `y`). Only the tier each title gets is modelled.
- assets/js/common.js, assets/js/test.js and system-guide/assets/scripts/common/overlay.js are not part of this model. They are smooth-scroll wiring and a single class toggle.
- `updateDropdownWidth`, the 10 ms timer that calls it on expand, and the resize listener. These are pixel measurements.
- `console.log` calls.
- `trapFocusInList` is not part of this model. It is not one of the functions modelled here.
- The cleanup functions the helpers return, and the listener removal they perform.
- The keydown listeners that `setupTagsKeyboardAccess` adds again after every toggle. Each copy makes the same writes, and the model runs the field's handler once.
- Timer delays and real time. Each timer is an event that may fire at any later point. A pending timer is never cancelled, because the source never cancels one.
- The preload of a timeline image and the animation frame that completes its swap are one event. Swaps may complete in any order.
- Mouse focus, text trimming and the `textContent` of elements. Texts are given as already trimmed strings.
- Behaviour the widgets do not have:
  - a single roving `tabindex="0"` (the dropdown puts every item in the tab order);
  - a `change` event on the native select;
  - focus moving to a neighbouring tag after a removal.
- FocusTrap.TabCycles: takes the browser's tab order over the container to be the document order of the focusable list, with every listed element focusable. In the source a `display:none` last element or a positive `tabindex` lets Tab leave the container, because the trap only checks the first and last elements of the list.
- MultiSelect.ToggleOption: deselecting finds the tag by exact equality of `data-value`. The source builds the CSS selector `.select__tag[data-value="…"]` from the raw value instead. A value holding `"` or a newline makes that selector invalid, so `querySelector` throws after the option and the native option have flipped, and the tag stays. A value holding `\` is read as a CSS escape, matches no tag, and the tag stays as well. For such values the source breaks "tag values equal selected values", which `ToggleKeeps` proves for every value.
- The page's elements are assumed present. These are `.skill-box` (a missing one throws in `dropNextSkill` after the index is raised, so no element is pushed), `#skillCanvas` (a missing one throws in `startSkillDropOnce` after the engine is set), and `.comp-workflow` and the two `.timeline-bg` layers. The source looks them up without a guard.
- Timeline.Swapped: a `data-bg` value that is not a valid unquoted url token is not modelled. It contains whitespace, parentheses or quotes. The browser rejects `url(src)` for such a value and keeps the old image, so the source queues the swap again on the next `setActive`, while the model shows the new image and skips it. `Url` stands for the serialised value `url("src")`; both contain `src`.
- Timeline.Activate: an index past the last item throws in the source after the classes are updated. The model stops there rather than modelling an exception. For the `load` listener the throw also skips its 300 ms timer, and `Step` does the same (`LoadSchedules`).
- Dropdown.Select: an item without a `.dropdown__item-text` child throws in the source after the marking. The model stops there.
- Mindset.PastStart: the threshold is compared as an exact real. A zero total length is NaN in the source and is treated as "not past". Floating-point rounding is not modelled.
- MultiSelect.StepKeeps: the native mirror is not promised for the remove button of a tag made by `toggleOption`. The source writes the captured `true` there, and `ToggledTagRemovalDesyncs` shows the mirror breaking.
