/** The loading screen's progress counter (assets/js/app.js, top of the file): a
    module-level `time` that `animateScene` raises by one per 10 ms step while it is
    below 100, a `loadingStarted` flag that lets the first `readystatechange` start the
    animation, and the jumps each ready state makes.

    The 10 ms and 500 ms timers are explicit events: `pendingSteps` counts scheduled
    `animateScene` calls and `pendingHides` scheduled `hideLoader` calls. */
module Loader {
  import opened Common

  datatype ReadyState = Loading | Interactive | Complete

  /** `time`, `loadingStarted`, the fill bar's `style.height` in percent (None until
      first written) and the timers still to fire. */
  datatype State = State(time: int, loadingStarted: bool, fillHeight: Option<int>,
                         pendingSteps: nat, pendingHides: nat)

  const Init := State(0, false, None, 0, 0)

  /** The value `time` jumps to for each ready state. */
  function TimeFor(rs: ReadyState): (t: int)
    ensures 0 < t <= 100
    ensures t == 100 <==> rs == Complete
  {
    match rs
    case Loading => 31
    case Interactive => 72
    case Complete => 100
  }

  /** The state after one call of `animateScene`; `hasFill` says whether `.loading-screen-fill` exists. */
  function Animated(s: State, hasFill: bool): State {
    if !hasFill then s
    else
      var s1 := s.(fillHeight := Some(s.time));
      if s.time < 100 then s1.(time := s.time + 1, pendingSteps := s.pendingSteps + 1)
      else s1.(pendingHides := s.pendingHides + 1)
  }

  /** The `readystatechange` handler. */
  function ReadyStateChange(s: State, hasFill: bool, rs: ReadyState): State {
    var s1 := if !s.loadingStarted then Animated(s.(loadingStarted := true), hasFill) else s;
    var s2 := s1.(time := TimeFor(rs));
    if rs == Complete then s2.(pendingHides := s2.pendingHides + 1) else s2
  }

  /** The 10 ms timer fires and runs `animateScene` again. */
  function StepFires(s: State, hasFill: bool): State
    requires s.pendingSteps > 0
  {
    Animated(s.(pendingSteps := s.pendingSteps - 1), hasFill)
  }

  /** The 500 ms timer fires; what `hideLoader` does to the page is not modelled. */
  function HideFires(s: State): State
    requires s.pendingHides > 0
  {
    s.(pendingHides := s.pendingHides - 1)
  }

  datatype Event = ReadyChange(rs: ReadyState) | StepTimerFires | HideTimerFires

  predicate Enabled(s: State, e: Event) {
    match e
    case StepTimerFires => s.pendingSteps > 0
    case HideTimerFires => s.pendingHides > 0
    case ReadyChange(_) => true
  }

  function Step(s: State, hasFill: bool, e: Event): State
    requires Enabled(s, e)
  {
    match e
    case ReadyChange(rs) => ReadyStateChange(s, hasFill, rs)
    case StepTimerFires => StepFires(s, hasFill)
    case HideTimerFires => HideFires(s)
  }

  /** Runs a sequence of events; None when a timer event finds no timer pending. */
  function Run(s: State, hasFill: bool, es: seq<Event>): Option<State>
    decreases |es|
  {
    if es == [] then Some(s)
    else if !Enabled(s, es[0]) then None
    else Run(Step(s, hasFill, es[0]), hasFill, es[1..])
  }

  /** What the counter keeps true: `time` and the bar stay within 0..100, at most one
      step chain is ever running (the flag starts the animation once), nothing happens
      before the first `readystatechange`, and nothing animates without a fill bar. */
  predicate Inv(s: State, hasFill: bool) {
    && 0 <= s.time <= 100
    && (s.fillHeight.Some? ==> 0 <= s.fillHeight.value <= 100)
    && s.pendingSteps <= 1
    && (!s.loadingStarted ==> s == Init)
    && (!hasFill ==> s.pendingSteps == 0 && s.fillHeight.None?)
  }

  lemma StepKeeps(s: State, hasFill: bool, e: Event)
    requires Inv(s, hasFill) && Enabled(s, e)
    ensures Inv(Step(s, hasFill, e), hasFill)
    ensures Step(s, hasFill, e).loadingStarted
    ensures e.ReadyChange? ==> Step(s, hasFill, e).time == TimeFor(e.rs)
  {
  }

  lemma {:induction false} RunKeeps(s: State, hasFill: bool, es: seq<Event>)
    requires Inv(s, hasFill)
    ensures Run(s, hasFill, es).Some? ==> Inv(Run(s, hasFill, es).value, hasFill)
    decreases |es|
  {
    if es != [] && Enabled(s, es[0]) {
      StepKeeps(s, hasFill, es[0]);
      RunKeeps(Step(s, hasFill, es[0]), hasFill, es[1..]);
    }
  }

  /** The first `readystatechange` starts exactly one step chain (when there is a fill
      bar); later ones start none, whatever their ready state. */
  lemma StartsOnce(s: State, hasFill: bool, rs: ReadyState)
    requires Inv(s, hasFill)
    ensures var r := ReadyStateChange(s, hasFill, rs);
      && r.loadingStarted
      && r.pendingSteps == (if !s.loadingStarted && hasFill then 1 else s.pendingSteps)
      && (s.loadingStarted ==> r.fillHeight == s.fillHeight)
  {
  }

  /** A step below 100 raises `time` by exactly one and schedules the next step; a step
      at 100 schedules `hideLoader` and no further step. */
  lemma StepAdvances(s: State)
    requires Inv(s, true) && s.pendingSteps > 0
    ensures var r := StepFires(s, true);
      && r.fillHeight == Some(s.time)
      && (s.time < 100 ==> r.time == s.time + 1 && r.pendingSteps == 1 && r.pendingHides == s.pendingHides)
      && (s.time == 100 ==> r.time == 100 && r.pendingSteps == 0 && r.pendingHides == s.pendingHides + 1)
  {
  }

  /** `n` step-timer firings in a row. */
  function Steps(s: State, n: nat): (r: State)
    requires Inv(s, true) && s.pendingSteps == 1 && s.time + n <= 100
    ensures Inv(r, true) && r.pendingSteps == 1
    decreases n
  {
    if n == 0 then s else Steps(StepFires(s, true), n - 1)
  }

  lemma {:induction false} StepsCount(s: State, n: nat)
    requires Inv(s, true) && s.pendingSteps == 1 && s.time + n <= 100
    ensures var r := Steps(s, n);
      && r.time == s.time + n && r.pendingHides == s.pendingHides
      && r.fillHeight == (if n == 0 then s.fillHeight else Some(s.time + n - 1))
    decreases n
  {
    if n > 0 {
      StepsCount(StepFires(s, true), n - 1);
    }
  }

  /** Left alone, the running animation reaches 100 after exactly `100 - time` steps;
      the next step draws the full bar and schedules `hideLoader`, and the chain stops. */
  lemma AnimationFinishes(s: State)
    requires Inv(s, true) && s.pendingSteps == 1
    ensures var r := StepFires(Steps(s, 100 - s.time), true);
      && r.time == 100 && r.fillHeight == Some(100)
      && r.pendingSteps == 0 && r.pendingHides == s.pendingHides + 1
  {
    StepsCount(s, 100 - s.time);
  }

  /** `time` is not monotone: a `readystatechange` to "interactive" after the animation
      has passed 72 moves it back to 72; and a "complete" that arrives while the
      animation is still running leads to `hideLoader` being scheduled twice. */
  lemma ReadyStateRewinds()
    ensures var s := State(90, true, Some(89), 1, 0);
      && Inv(s, true)
      && ReadyStateChange(s, true, Interactive).time == 72
      && var c := ReadyStateChange(s, true, Complete);
         && c.pendingHides == 1 && c.pendingSteps == 1
         && StepFires(c, true).pendingHides == 2
  {
  }

  // ---------------------------------------------------------------------------
  // The module-level variables, updated in place

  class LoadingScreen {
    var time: int
    var loadingStarted: bool
    var fillHeight: Option<int>
    var pendingSteps: nat
    var pendingHides: nat
    const hasFill: bool

    function View(): State
      reads this
    {
      State(time, loadingStarted, fillHeight, pendingSteps, pendingHides)
    }

    constructor (hasFill: bool)
      ensures View() == Init && this.hasFill == hasFill
    {
      time, loadingStarted, fillHeight := 0, false, None;
      pendingSteps, pendingHides := 0, 0;
      this.hasFill := hasFill;
    }

    method AnimateScene()
      modifies this
      ensures View() == Animated(old(View()), hasFill)
    {
      if !hasFill {
        return;
      }
      fillHeight := Some(time);
      if time < 100 {
        time := time + 1;
        pendingSteps := pendingSteps + 1;
      } else {
        pendingHides := pendingHides + 1;
      }
    }

    method ReadyStateChange(rs: ReadyState)
      modifies this
      ensures View() == Step(old(View()), hasFill, ReadyChange(rs))
      ensures Inv(old(View()), hasFill) ==> Inv(View(), hasFill)
    {
      ghost var s := View();
      if !loadingStarted {
        loadingStarted := true;
        AnimateScene();
      }
      match rs {
        case Loading => time := 31;
        case Interactive => time := 72;
        case Complete =>
          time := 100;
          pendingHides := pendingHides + 1;
      }
      if Inv(s, hasFill) { StepKeeps(s, hasFill, ReadyChange(rs)); }
    }

    method StepTimerFires()
      requires pendingSteps > 0
      modifies this
      ensures View() == Step(old(View()), hasFill, Event.StepTimerFires)
      ensures Inv(old(View()), hasFill) ==> Inv(View(), hasFill)
    {
      ghost var s := View();
      pendingSteps := pendingSteps - 1;
      AnimateScene();
      if Inv(s, hasFill) { StepKeeps(s, hasFill, Event.StepTimerFires); }
    }

    method HideTimerFires()
      requires pendingHides > 0
      modifies this
      ensures View() == Step(old(View()), hasFill, Event.HideTimerFires)
      ensures Inv(old(View()), hasFill) ==> Inv(View(), hasFill)
    {
      pendingHides := pendingHides - 1;
    }
  }
}
