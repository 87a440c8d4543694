/** The project list's focus effect (`applyScaling` in assets/js/app.js): when a
    project opens, every project title is tweened to one of four looks chosen by its
    distance from the open one. Only the choice of look is modelled; the tween itself
    (duration, easing, the `y` offset) belongs to the animation library. */
module Scaling {
  /** The target of one title's tween: scale, opacity and blur radius in pixels. */
  datatype Tier = Tier(scale: real, opacity: real, blurPx: int)

  const Active := Tier(1.0, 1.0, 0)
  const Near := Tier(0.95, 0.7, 1)
  const Second := Tier(0.9, 0.5, 2)
  const Far := Tier(0.85, 0.3, 4)

  function Distance(index: int, activeIndex: int): nat {
    if index >= activeIndex then index - activeIndex else activeIndex - index
  }

  /** The look of the title at `index` when `activeIndex` is open. */
  function TierFor(index: int, activeIndex: int): Tier {
    if index == activeIndex then Active
    else if Distance(index, activeIndex) == 1 then Near
    else if Distance(index, activeIndex) == 2 then Second
    else Far
  }

  /** The look depends on the distance alone, so it is symmetric around the open item. */
  lemma Symmetric(activeIndex: int, d: nat)
    ensures TierFor(activeIndex + d, activeIndex) == TierFor(activeIndex - d, activeIndex)
  {
  }

  /** Further from the open item a title is never larger, more opaque or sharper. */
  lemma Monotone(activeIndex: int, i: int, j: int)
    requires Distance(i, activeIndex) <= Distance(j, activeIndex)
    ensures TierFor(j, activeIndex).scale <= TierFor(i, activeIndex).scale
    ensures TierFor(j, activeIndex).opacity <= TierFor(i, activeIndex).opacity
    ensures TierFor(i, activeIndex).blurPx <= TierFor(j, activeIndex).blurPx
  {
  }

  /** Exactly the open item is at full scale, full opacity and without blur. */
  lemma OnlyActiveIsSharp(activeIndex: int, i: int)
    ensures TierFor(i, activeIndex) == Active <==> i == activeIndex
    ensures TierFor(i, activeIndex).blurPx == 0 <==> i == activeIndex
  {
  }

  /** `applyScaling(activeIndex)` over `n` projects: the look given to each title, in order. */
  method ApplyScaling(n: nat, activeIndex: int) returns (tiers: seq<Tier>)
    ensures |tiers| == n
    ensures forall i :: 0 <= i < n ==> tiers[i] == TierFor(i, activeIndex)
    ensures 0 <= activeIndex < n ==> tiers[activeIndex] == Active
    ensures forall i :: 0 <= i < n && i != activeIndex ==> tiers[i].scale < 1.0
  {
    tiers := [];
    var index := 0;
    while index < n
      invariant 0 <= index <= n && |tiers| == index
      invariant forall i :: 0 <= i < index ==> tiers[i] == TierFor(i, activeIndex)
    {
      var distance := if index >= activeIndex then index - activeIndex else activeIndex - index;
      var t;
      if index == activeIndex {
        t := Active;
      } else if distance == 1 {
        t := Near;
      } else if distance == 2 {
        t := Second;
      } else {
        t := Far;
      }
      tiers := tiers + [t];
      index := index + 1;
    }
  }
}
