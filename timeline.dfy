/** The workflow timeline (assets/js/app.js): `setActive` marks one `.timeline-item` as
    active and cross-fades two full-screen background layers (`.timeline-bg.bg1` and
    `.bg2`) to the item's `data-bg` image; `handleTimelineScroll` picks, once per
    animation frame, the first item whose box straddles 30% of the viewport height;
    `updateBackgroundVisibility` hides both layers while the section is off screen.

    The image preload and the animation frame that performs a swap are one explicit
    event (`SwapDone`); pending swaps complete in any order, as images may load in any
    order. The frame requested by `handleTimelineScroll` is the event `Frame`,
    which receives the items' boxes as measured at that moment. */
module Timeline {
  import opened Common

  datatype Layer = Bg1 | Bg2

  function Other(l: Layer): Layer {
    if l == Bg1 then Bg2 else Bg1
  }

  /** A swap waiting for its image: the source and the two layers captured when
      `setActive` ran. */
  datatype Swap = Swap(src: string, next: Layer, current: Layer)

  /** One item's vertical extent in viewport coordinates. */
  datatype Band = Band(top: real, bottom: real)

  /** `current` is `currentTimelineIndex`, `active[i]` the `timeline-item--active` class
      of item i, `bgs[i]` its `data-bg` (None when absent), `image1`/`image2` the layers'
      `style.backgroundImage` and `visible1`/`visible2` their `visible` class. */
  datatype State = State(current: int, active: seq<bool>, bgs: seq<Option<string>>,
                         image1: string, image2: string, visible1: bool, visible2: bool,
                         showingBg1: bool, ticking: bool, swaps: seq<Swap>, loadTimers: nat)

  function Init(bgs: seq<Option<string>>, active: seq<bool>, image1: string, image2: string,
                visible1: bool, visible2: bool): State
  {
    State(-1, active, bgs, image1, image2, visible1, visible2, true, false, [], 0)
  }

  predicate OccursAt(s: string, t: string, i: int) {
    0 <= i && i + |t| <= |s| && s[i..i + |t|] == t
  }

  /** `s.includes(t)`. */
  predicate Contains(s: string, t: string) {
    exists i :: 0 <= i <= |s| - |t| && OccursAt(s, t, i)
  }

  /** The layer's `background-image` after `style.backgroundImage = url(src)`, abstracted:
      a browser serialises it as `url("src")`, and `Contains(…, src)` holds for that value
      as for this one, which is all the skip test looks at. A src that is not a valid
      unquoted url token makes the browser reject the write; that case is not modelled. */
  function Url(src: string): string {
    "url(" + src + ")"
  }

  function Image(s: State, l: Layer): string {
    if l == Bg1 then s.image1 else s.image2
  }

  function Visible(s: State, l: Layer): bool {
    if l == Bg1 then s.visible1 else s.visible2
  }

  /** The layer a swap would fade in: the one not showing. */
  function NextLayer(s: State): Layer {
    if s.showingBg1 then Bg2 else Bg1
  }

  function Marks(n: nat, index: int): (r: seq<bool>)
    ensures |r| == n && forall i :: 0 <= i < n ==> (r[i] <==> i == index)
  {
    seq(n, i => i == index)
  }

  /** `setActive(index)`. An index past the last item makes `item.getAttribute` throw
      after the classes are updated, so nothing more happens. */
  function Activate(s: State, index: nat): State {
    if index == s.current then s
    else
      var s1 := s.(current := index, active := Marks(|s.active|, index));
      if index >= |s.bgs| then s1
      else match s.bgs[index]
        case None => s1
        case Some(src) =>
          if src == [] || Contains(Image(s, NextLayer(s)), src) then s1
          else s1.(swaps := s.swaps + [Swap(src, NextLayer(s), Other(NextLayer(s)))])
  }

  /** Whether `setActive(index)` throws: a new index with no item behind it. */
  predicate ActivateThrows(s: State, index: nat) {
    index != s.current && index >= |s.bgs|
  }

  function RemoveAt<T>(s: seq<T>, k: nat): seq<T>
    requires k < |s|
  {
    s[..k] + s[k + 1..]
  }

  /** Swap j's image has loaded and its animation frame runs. */
  function Swapped(s: State, j: nat): State
    requires j < |s.swaps|
  {
    var w := s.swaps[j];
    var s1 := if w.next == Bg1 then s.(image1 := Url(w.src), visible1 := true)
              else s.(image2 := Url(w.src), visible2 := true);
    var s2 := if w.current == Bg1 then s1.(visible1 := false) else s1.(visible2 := false);
    s2.(showingBg1 := !s.showingBg1, swaps := RemoveAt(s.swaps, j))
  }

  /** `handleTimelineScroll()`: one frame request at a time. */
  function HandleScroll(s: State): State {
    if s.ticking then s else s.(ticking := true)
  }

  predicate InBand(b: Band, y: real) {
    b.top <= y < b.bottom
  }

  /** The lowest index whose band contains y, if any. */
  function FirstBand(bands: seq<Band>, y: real): (r: Option<nat>)
    ensures r.Some? ==> r.value < |bands| && InBand(bands[r.value], y)
    ensures r.Some? ==> forall j :: 0 <= j < r.value ==> !InBand(bands[j], y)
    ensures r.None? <==> forall j :: 0 <= j < |bands| ==> !InBand(bands[j], y)
  {
    if |bands| == 0 then None
    else if InBand(bands[0], y) then Some(0)
    else match FirstBand(bands[1..], y)
      case None => None
      case Some(k) => Some(k + 1)
  }

  /** The line the items are tested against: 30% of the viewport height. */
  function TriggerY(viewportHeight: real): real {
    viewportHeight * 3.0 / 10.0
  }

  /** The frame requested by `handleTimelineScroll` runs, with the items' boxes. */
  function FrameRan(s: State, bands: seq<Band>, viewportHeight: real): State
    requires s.ticking
  {
    var s1 := match FirstBand(bands, TriggerY(viewportHeight))
      case None => s
      case Some(i) => Activate(s, i);
    s1.(ticking := false)
  }

  /** `updateBackgroundVisibility()` given the section's box and the viewport height. */
  function UpdateVisibility(s: State, top: real, bottom: real, viewportHeight: real): State {
    if !(top < viewportHeight && bottom > 0.0) then s.(visible1 := false, visible2 := false)
    else s.(visible1 := s.showingBg1, visible2 := !s.showingBg1)
  }

  /** The events: a scroll trigger entering item i (`onEnter`/`onEnterBack`), a scroll,
      the window's `load`, the 300 ms timer `load` schedules, a frame, a swap. A scroll
      and the load timer carry the section's box and the viewport height. */
  datatype Event =
    | ItemEnters(i: nat)
    | Scroll(top: real, bottom: real, viewportHeight: real)
    | Load
    | LoadTimerFires(top: real, bottom: real, viewportHeight: real)
    | Frame(bands: seq<Band>, viewportHeight: real)
    | SwapDone(j: nat)

  predicate Enabled(s: State, e: Event) {
    match e
    case ItemEnters(i) => i < |s.bgs|
    case LoadTimerFires(_, _, _) => s.loadTimers > 0
    case Frame(bands, _) => s.ticking && |bands| == |s.bgs|
    case SwapDone(j) => j < |s.swaps|
    case _ => true
  }

  function Step(s: State, e: Event): State
    requires Enabled(s, e)
  {
    match e
    case ItemEnters(i) => Activate(s, i)
    case Scroll(top, bottom, vh) => UpdateVisibility(HandleScroll(s), top, bottom, vh)
    case Load =>
      var s1 := Activate(s, 0);
      if ActivateThrows(s, 0) then s1 else s1.(loadTimers := s1.loadTimers + 1)
    case LoadTimerFires(top, bottom, vh) =>
      UpdateVisibility(HandleScroll(s.(loadTimers := s.loadTimers - 1)), top, bottom, vh)
    case Frame(bands, vh) => FrameRan(s, bands, vh)
    case SwapDone(j) => Swapped(s, j)
  }

  function Run(s: State, es: seq<Event>): Option<State>
    decreases |es|
  {
    if es == [] then Some(s)
    else if !Enabled(s, es[0]) then None
    else Run(Step(s, es[0]), es[1..])
  }

  // ---------------------------------------------------------------------------
  // Properties

  /** One flag per item, never both layers visible, and every pending swap fades
      between two different layers. */
  predicate Inv(s: State) {
    && |s.active| == |s.bgs|
    && !(s.visible1 && s.visible2)
    && (forall j :: 0 <= j < |s.swaps| ==> s.swaps[j].next != s.swaps[j].current)
  }

  /** `setActive` keeps the invariant: it queues a swap from the showing layer to the other. */
  lemma ActivateKeeps(s: State, index: nat)
    requires Inv(s)
    ensures Inv(Activate(s, index)) && Activate(s, index).bgs == s.bgs
  {
  }

  /** A completed swap hides the layer it fades out and drops itself from the queue. */
  lemma SwappedKeeps(s: State, j: nat)
    requires Inv(s) && j < |s.swaps|
    ensures Inv(Swapped(s, j)) && Swapped(s, j).bgs == s.bgs
  {
    var r := Swapped(s, j);
    assert forall m :: 0 <= m < |r.swaps| ==> r.swaps[m] in s.swaps;
  }

  lemma StepKeeps(s: State, e: Event)
    requires Inv(s) && Enabled(s, e)
    ensures Inv(Step(s, e))
    ensures Step(s, e).bgs == s.bgs
  {
    match e {
      case ItemEnters(i) => ActivateKeeps(s, i);
      case Load => ActivateKeeps(s, 0);
      case SwapDone(j) => SwappedKeeps(s, j);
      case Frame(bands, vh) =>
        var f := FirstBand(bands, TriggerY(vh));
        if f.Some? { ActivateKeeps(s, f.value); }
      case Scroll(_, _, _) =>
      case LoadTimerFires(_, _, _) =>
    }
  }

  /** The `load` listener schedules its 300 ms timer only when `setActive(0)` returns:
      on a page without timeline items, before anything is active, it throws first. */
  lemma LoadSchedules(s: State)
    ensures Step(s, Load).loadTimers ==
            if |s.bgs| == 0 && s.current != 0 then s.loadTimers else s.loadTimers + 1
    ensures Step(s, Load).current == 0
  {
  }

  lemma {:induction false} RunKeeps(s: State, es: seq<Event>)
    requires Inv(s)
    ensures Run(s, es).Some? ==> Inv(Run(s, es).value) && Run(s, es).value.bgs == s.bgs
    decreases |es|
  {
    if es != [] && Enabled(s, es[0]) {
      StepKeeps(s, es[0]);
      RunKeeps(Step(s, es[0]), es[1..]);
    }
  }

  /** A new index becomes current and is the only active item; the current index
      changes nothing. */
  lemma SetActiveMarks(s: State, index: nat)
    requires Inv(s)
    ensures var r := Activate(s, index);
      && (index == s.current ==> r == s)
      && (index != s.current ==>
            && r.current == index && |r.active| == |s.active|
            && (forall i :: 0 <= i < |r.active| ==> (r.active[i] <==> i == index))
            && r.showingBg1 == s.showingBg1)
  {
  }

  /** The swap is queued exactly when the item has a non-empty `data-bg` that the
      layer to fade in does not already contain; it then fades from the showing layer
      to the other one. */
  lemma SetActiveSwaps(s: State, index: nat)
    requires Inv(s) && index != s.current && index < |s.bgs|
    ensures var r := Activate(s, index);
      var queues := s.bgs[index].Some? && s.bgs[index].value != [] && !Contains(Image(s, NextLayer(s)), s.bgs[index].value);
      && (queues ==> r.swaps == s.swaps + [Swap(s.bgs[index].value, NextLayer(s), Other(NextLayer(s)))])
      && (!queues ==> r.swaps == s.swaps)
  {
  }

  /** `Url(src)` contains `src`, so once a layer shows an image a swap to the same
      image into that layer is skipped. */
  lemma UrlContains(src: string)
    ensures Contains(Url(src), src)
  {
    assert OccursAt(Url(src), src, 4);
  }

  /** A completed swap flips `showingTimelineBg1` exactly once, shows the new image on
      the layer it fades in and hides the other. */
  lemma SwapFlips(s: State, j: nat)
    requires Inv(s) && j < |s.swaps|
    ensures var w := s.swaps[j]; var r := Swapped(s, j);
      && r.showingBg1 == !s.showingBg1
      && Image(r, w.next) == Url(w.src) && Contains(Image(r, w.next), w.src)
      && Visible(r, w.next) && !Visible(r, w.current)
      && |r.swaps| == |s.swaps| - 1
  {
    UrlContains(s.swaps[j].src);
  }

  /** The visible layer, if any, is the one the flag says is showing. */
  predicate InStep(s: State) {
    (s.visible1 ==> s.showingBg1) && (s.visible2 ==> !s.showingBg1)
  }

  /** A swap that fades in the layer that was not showing keeps the layers in step. */
  lemma SwapKeepsInStep(s: State, j: nat)
    requires Inv(s) && j < |s.swaps| && s.swaps[j].next == NextLayer(s)
    ensures InStep(Swapped(s, j))
  {
  }

  /** Off screen no layer is visible; on screen exactly one is, bg1 exactly when
      `showingTimelineBg1`. */
  lemma VisibilityFollowsFlag(s: State, top: real, bottom: real, vh: real)
    ensures var r := UpdateVisibility(s, top, bottom, vh);
      && InStep(r)
      && (!(top < vh && bottom > 0.0) ==> !r.visible1 && !r.visible2)
      && (top < vh && bottom > 0.0 ==> (r.visible1 <==> s.showingBg1) && (r.visible2 <==> !s.showingBg1))
  {
  }

  /** While a frame is pending, further scrolls request nothing; the frame activates
      the first band containing the trigger line and clears `ticking`. */
  lemma FrameOnce(s: State, bands: seq<Band>, vh: real)
    requires Inv(s) && |bands| == |s.bgs|
    ensures HandleScroll(HandleScroll(s)) == HandleScroll(s) && HandleScroll(s).ticking
    ensures var r := FrameRan(HandleScroll(s), bands, vh);
      && !r.ticking
      && (FirstBand(bands, TriggerY(vh)).None? ==> r == HandleScroll(s).(ticking := false))
      && (FirstBand(bands, TriggerY(vh)).Some? ==> r.current == FirstBand(bands, TriggerY(vh)).value)
  {
  }

  /** Two `setActive` calls before the first image has loaded both capture bg2 as the
      layer to fade in. Once both swaps complete the flag has flipped twice and says
      bg1, while bg2 is the visible layer; the next `updateBackgroundVisibility` on
      screen then shows bg1, which still holds its old image. */
  lemma OverlappingSwapsDesync()
    ensures var s0 := Init([Some("a.jpg"), Some("b.jpg"), Some("c.jpg")], [false, false, false], "", "", true, false);
      var s2 := Activate(Activate(s0, 1), 2);
      && Inv(s0) && InStep(s0)
      && s2.swaps == [Swap("b.jpg", Bg2, Bg1), Swap("c.jpg", Bg2, Bg1)]
      && var s4 := Swapped(Swapped(s2, 0), 0);
         && s4.showingBg1 && s4.visible2 && !s4.visible1 && !InStep(s4)
         && var s5 := UpdateVisibility(s4, 0.0, 100.0, 800.0);
            && s5.visible1 && s5.image1 == "" && s5.image2 == Url("c.jpg")
  {
    var s0 := Init([Some("a.jpg"), Some("b.jpg"), Some("c.jpg")], [false, false, false], "", "", true, false);
    assert !Contains("", "b.jpg");
    assert !Contains("", "c.jpg");
    var s1 := Activate(s0, 1);
    assert s1.swaps == [Swap("b.jpg", Bg2, Bg1)];
  }

  // ---------------------------------------------------------------------------
  // The section's variables and elements, updated in place

  class Workflow {
    var currentTimelineIndex: int
    var active: seq<bool>
    const bgs: seq<Option<string>>
    var image1: string
    var image2: string
    var visible1: bool
    var visible2: bool
    var showingTimelineBg1: bool
    var ticking: bool
    var swaps: seq<Swap>
    var loadTimers: nat

    function View(): State
      reads this
    {
      State(currentTimelineIndex, active, bgs, image1, image2, visible1, visible2,
            showingTimelineBg1, ticking, swaps, loadTimers)
    }

    ghost predicate Valid()
      reads this
    {
      Inv(View())
    }

    constructor (bgs: seq<Option<string>>, image1: string, image2: string, visible1: bool, visible2: bool)
      requires !(visible1 && visible2)
      ensures Valid() && View() == Init(bgs, Marks(|bgs|, -1), image1, image2, visible1, visible2)
    {
      currentTimelineIndex := -1;
      active := Marks(|bgs|, -1);
      this.bgs := bgs;
      this.image1, this.image2 := image1, image2;
      this.visible1, this.visible2 := visible1, visible2;
      showingTimelineBg1, ticking, swaps, loadTimers := true, false, [], 0;
    }

    /** Whether `hay` contains `needle`, as `String.prototype.includes`. */
    static method Includes(hay: string, needle: string) returns (r: bool)
      ensures r == Contains(hay, needle)
    {
      if |needle| > |hay| {
        return false;
      }
      var i := 0;
      while i <= |hay| - |needle|
        invariant 0 <= i <= |hay| - |needle| + 1
        invariant forall k :: 0 <= k < i ==> !OccursAt(hay, needle, k)
      {
        if hay[i..i + |needle|] == needle {
          assert OccursAt(hay, needle, i);
          return true;
        }
        i := i + 1;
      }
      return false;
    }

    method SetActive(index: nat)
      requires Valid()
      modifies this
      ensures Valid() && View() == Activate(old(View()), index)
    {
      if index == currentTimelineIndex {
        return;
      }
      currentTimelineIndex := index;
      var i := 0;
      while i < |active|
        invariant 0 <= i <= |active| && |active| == |old(active)|
        invariant forall m :: 0 <= m < i ==> (active[m] <==> m == index)
        invariant forall m :: i <= m < |active| ==> active[m] == old(active)[m]
        modifies this`active
      {
        active := active[i := i == index];
        i := i + 1;
      }
      if index >= |bgs| {
        return;
      }
      var next := if showingTimelineBg1 then Bg2 else Bg1;
      var current := if showingTimelineBg1 then Bg1 else Bg2;
      match bgs[index] {
        case None =>
        case Some(src) =>
          var shown := Includes(if next == Bg1 then image1 else image2, src);
          if src != [] && !shown {
            swaps := swaps + [Swap(src, next, current)];
          }
      }
    }

    method SwapFires(j: nat)
      requires Valid() && j < |swaps|
      modifies this
      ensures Valid() && View() == Swapped(old(View()), j)
    {
      StepKeeps(View(), SwapDone(j));
      var w := swaps[j];
      if w.next == Bg1 {
        image1 := Url(w.src);
        visible1 := true;
      } else {
        image2 := Url(w.src);
        visible2 := true;
      }
      if w.current == Bg1 {
        visible1 := false;
      } else {
        visible2 := false;
      }
      showingTimelineBg1 := !showingTimelineBg1;
      swaps := swaps[..j] + swaps[j + 1..];
    }

    method HandleTimelineScroll()
      requires Valid()
      modifies this
      ensures Valid() && View() == HandleScroll(old(View()))
    {
      if ticking {
        return;
      }
      ticking := true;
    }

    /** The frame callback: the first item whose box contains the trigger line. */
    method FrameFires(bands: seq<Band>, viewportHeight: real)
      requires Valid() && ticking && |bands| == |bgs|
      modifies this
      ensures Valid() && View() == FrameRan(old(View()), bands, viewportHeight)
    {
      var triggerY := viewportHeight * 3.0 / 10.0;
      var i := 0;
      while i < |bands|
        invariant 0 <= i <= |bands|
        invariant forall j :: 0 <= j < i ==> !InBand(bands[j], triggerY)
      {
        if bands[i].top <= triggerY && bands[i].bottom > triggerY {
          SetActive(i);
          break;
        }
        i := i + 1;
      }
      ticking := false;
    }

    method UpdateBackgroundVisibility(top: real, bottom: real, viewportHeight: real)
      requires Valid()
      modifies this
      ensures Valid() && View() == UpdateVisibility(old(View()), top, bottom, viewportHeight)
    {
      var isInView := top < viewportHeight && bottom > 0.0;
      if !isInView {
        visible1 := false;
        visible2 := false;
      } else if showingTimelineBg1 {
        visible1 := true;
        visible2 := false;
      } else {
        visible2 := true;
        visible1 := false;
      }
    }
  }
}
