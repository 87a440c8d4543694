/** The run-once guards around the mindset chart (assets/js/app.js): the pinned
    section's `onUpdate` asks for the chart once scrolling has gone 2% past the point
    where the horizontal mindset strip starts, and only while `hasDrawnMindsetChart` is
    false; `drawMindsetChart` itself stops when its container is missing or already
    carries `data-initiated="true"`. Drawing (d3) is reduced to a count of draws. */
module Mindset {
  /** `hasDrawn` is `hasDrawnMindsetChart`, `initiated` the container's
      `data-initiated` flag, `draws` how many times the chart body has run. */
  datatype State = State(hasDrawn: bool, initiated: bool, draws: nat)

  const Init := State(false, false, 0)

  /** `drawMindsetChart()`; `hasContainer` says whether `.mindset-chart` exists. */
  function DrawChart(s: State, hasContainer: bool): State {
    if !hasContainer || s.initiated then s
    else s.(initiated := true, draws := s.draws + 1)
  }

  /** `progress > mindsetStartRatio + 0.02`, where the ratio is
      `extraScroll / (extraScroll + mindsetWidth)`. Both lengths are sizes, so the only
      degenerate case is 0 / 0, which is NaN in the source and makes the comparison false. */
  predicate PastStart(progress: real, extraScroll: real, mindsetWidth: real)
    requires extraScroll >= 0.0 && mindsetWidth >= 0.0
  {
    extraScroll + mindsetWidth != 0.0 &&
    progress > extraScroll / (extraScroll + mindsetWidth) + 0.02
  }

  /** The state after the scroll trigger's `onUpdate` with the current progress. */
  function Updated(s: State, hasContainer: bool, progress: real, extraScroll: real, mindsetWidth: real): State
    requires extraScroll >= 0.0 && mindsetWidth >= 0.0
  {
    if !s.hasDrawn && PastStart(progress, extraScroll, mindsetWidth) then
      DrawChart(s, hasContainer).(hasDrawn := true)
    else s
  }

  /** The two flags agree and the chart has been drawn at most once. */
  predicate Inv(s: State, hasContainer: bool) {
    && (s.initiated <==> hasContainer && s.hasDrawn)
    && s.draws == (if s.initiated then 1 else 0)
  }

  lemma UpdateKeeps(s: State, hasContainer: bool, progress: real, extraScroll: real, mindsetWidth: real)
    requires Inv(s, hasContainer) && extraScroll >= 0.0 && mindsetWidth >= 0.0
    ensures Inv(Updated(s, hasContainer, progress, extraScroll, mindsetWidth), hasContainer)
    ensures s.hasDrawn ==> Updated(s, hasContainer, progress, extraScroll, mindsetWidth) == s
  {
  }

  /** A sequence of `onUpdate` calls with the given progress values. */
  function Updates(s: State, hasContainer: bool, ps: seq<real>, extraScroll: real, mindsetWidth: real): State
    requires extraScroll >= 0.0 && mindsetWidth >= 0.0
    decreases |ps|
  {
    if ps == [] then s
    else Updates(Updated(s, hasContainer, ps[0], extraScroll, mindsetWidth), hasContainer, ps[1..], extraScroll, mindsetWidth)
  }

  /** However the page is scrolled, the chart is drawn at most once; it is drawn
      exactly when the container exists and some update went past the threshold. */
  lemma {:induction false} DrawnAtMostOnce(s: State, hasContainer: bool, ps: seq<real>, extraScroll: real, mindsetWidth: real)
    requires Inv(s, hasContainer) && extraScroll >= 0.0 && mindsetWidth >= 0.0
    ensures var r := Updates(s, hasContainer, ps, extraScroll, mindsetWidth);
      && Inv(r, hasContainer) && r.draws <= 1
      && (r.hasDrawn <==> s.hasDrawn || exists k :: 0 <= k < |ps| && PastStart(ps[k], extraScroll, mindsetWidth))
    decreases |ps|
  {
    if ps != [] {
      var s1 := Updated(s, hasContainer, ps[0], extraScroll, mindsetWidth);
      UpdateKeeps(s, hasContainer, ps[0], extraScroll, mindsetWidth);
      DrawnAtMostOnce(s1, hasContainer, ps[1..], extraScroll, mindsetWidth);
      if exists k :: 0 <= k < |ps[1..]| && PastStart(ps[1..][k], extraScroll, mindsetWidth) {
        var k :| 0 <= k < |ps[1..]| && PastStart(ps[1..][k], extraScroll, mindsetWidth);
        assert PastStart(ps[k + 1], extraScroll, mindsetWidth);
      }
      if exists k :: 0 <= k < |ps| && PastStart(ps[k], extraScroll, mindsetWidth) {
        var k :| 0 <= k < |ps| && PastStart(ps[k], extraScroll, mindsetWidth);
        if k > 0 { assert PastStart(ps[1..][k - 1], extraScroll, mindsetWidth); }
      }
    }
  }

  /** The chart container's `data-initiated` guard alone also stops a second drawing. */
  lemma ChartGuard(s: State, hasContainer: bool)
    ensures DrawChart(DrawChart(s, hasContainer), hasContainer) == DrawChart(s, hasContainer)
    ensures DrawChart(s, hasContainer).draws <= s.draws + 1
  {
  }

  /** The pinned section's variables, updated in place. */
  class MindsetChart {
    var hasDrawnMindsetChart: bool
    var initiated: bool
    var draws: nat
    const hasContainer: bool
    const extraScroll: real
    const mindsetWidth: real

    function View(): State
      reads this
    {
      State(hasDrawnMindsetChart, initiated, draws)
    }

    ghost predicate Valid()
      reads this
    {
      Inv(View(), hasContainer) && extraScroll >= 0.0 && mindsetWidth >= 0.0
    }

    constructor (hasContainer: bool, extraScroll: real, mindsetWidth: real)
      requires extraScroll >= 0.0 && mindsetWidth >= 0.0
      ensures Valid() && View() == Init
      ensures this.hasContainer == hasContainer && this.extraScroll == extraScroll && this.mindsetWidth == mindsetWidth
    {
      hasDrawnMindsetChart, initiated, draws := false, false, 0;
      this.hasContainer := hasContainer;
      this.extraScroll := extraScroll;
      this.mindsetWidth := mindsetWidth;
    }

    method DrawMindsetChart()
      modifies this
      ensures View() == DrawChart(old(View()), hasContainer)
    {
      if !hasContainer || initiated {
        return;
      }
      initiated := true;
      draws := draws + 1;
    }

    method OnUpdate(progress: real)
      requires Valid()
      modifies this
      ensures Valid() && View() == Updated(old(View()), hasContainer, progress, extraScroll, mindsetWidth)
    {
      UpdateKeeps(View(), hasContainer, progress, extraScroll, mindsetWidth);
      if extraScroll + mindsetWidth == 0.0 {
        return;
      }
      var mindsetStartRatio := extraScroll / (extraScroll + mindsetWidth);
      if !hasDrawnMindsetChart && progress > mindsetStartRatio + 0.02 {
        DrawMindsetChart();
        hasDrawnMindsetChart := true;
      }
    }
  }
}
