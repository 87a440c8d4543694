/** The skill drop (assets/js/app.js): eleven skill badges fall one by one into a
    physics scene while the skills section is on screen. Only the bookkeeping is
    modelled: whether the engine exists, the runner's `enabled` flag, `skillList`,
    `skillDropIndex`, `dropInProgress` and the `skillElements` pairs. A physics body is
    an opaque token; the 600 ms timers are explicit events counted by `pendingDrops`. */
module SkillDrop {
  import opened Common

  datatype Skill = Skill(name: string, icon: string)

  /** The list `startSkillDropOnce` installs, in order. */
  const SkillList: seq<Skill> := [
    Skill("HTML", "html.png"), Skill("CSS", "css.png"), Skill("SCSS", "scss.png"),
    Skill("JavaScript", "js.png"), Skill("Bootstrap", "bootstrap.png"),
    Skill("Google Analytics", "analytics.png"), Skill("Photoshop", "ps.png"),
    Skill("Xd", "xd.png"), Skill("Git", "git.png"), Skill("GitLab", "gitlab.png"),
    Skill("Figma", "figma.png")]

  /** One `{el, body}` entry of `skillElements`: the badge shows `skill`; `body` is the
      token of the circle made for it. */
  datatype Dropped = Dropped(skill: Skill, body: nat)

  /** `engine` says whether `skillEngine` has been created; `nextBody` is the token the
      next circle gets. */
  datatype State = State(engine: bool, runnerEnabled: bool, skillList: seq<Skill>, index: nat,
                         dropInProgress: bool, elements: seq<Dropped>, pendingDrops: nat, nextBody: nat)

  const Init := State(false, false, [], 0, false, [], 0, 0)

  /** `dropNextSkill()`. */
  function DropNext(s: State): State {
    if s.index >= |s.skillList| || !s.dropInProgress then s
    else s.(index := s.index + 1,
            elements := s.elements + [Dropped(s.skillList[s.index], s.nextBody)],
            nextBody := s.nextBody + 1,
            pendingDrops := s.pendingDrops + 1)
  }

  /** `resumeSkillDrop()`. */
  function Resume(s: State): State {
    if !s.engine then s
    else DropNext(s.(dropInProgress := true, runnerEnabled := true))
  }

  /** `pauseSkillDrop()`. */
  function Pause(s: State): State {
    if !s.engine then s
    else s.(dropInProgress := false, runnerEnabled := false)
  }

  /** `startSkillDropOnce()`: the engine, the stopped runner and the skill list. */
  function StartOnce(s: State): State {
    if s.engine then s
    else s.(engine := true, runnerEnabled := false, skillList := SkillList)
  }

  /** A 600 ms timer fires: it drops the next skill only while the drop is in progress. */
  function DropFires(s: State): State
    requires s.pendingDrops > 0
  {
    var s1 := s.(pendingDrops := s.pendingDrops - 1);
    if s1.dropInProgress then DropNext(s1) else s1
  }

  /** The scroll trigger's callbacks and the drop timer. */
  datatype Event = ScrollEnter | ScrollLeave | ScrollEnterBack | ScrollLeaveBack | DropTimerFires

  function Step(s: State, e: Event): State
    requires e == DropTimerFires ==> s.pendingDrops > 0
  {
    match e
    case ScrollEnter => Resume(StartOnce(s))
    case ScrollLeave => Pause(s)
    case ScrollEnterBack => Resume(s)
    case ScrollLeaveBack => Pause(s)
    case DropTimerFires => DropFires(s)
  }

  function Run(s: State, es: seq<Event>): Option<State>
    decreases |es|
  {
    if es == [] then Some(s)
    else if es[0] == DropTimerFires && s.pendingDrops == 0 then None
    else Run(Step(s, es[0]), es[1..])
  }

  /** What the bookkeeping keeps true: one element per dropped skill, in list order,
      never more than the list holds, each with its own body; nothing before the
      engine exists; the runner runs exactly while the drop is in progress; and every
      pending timer was scheduled by a drop. */
  predicate Inv(s: State) {
    && |s.elements| == s.index <= |s.skillList|
    && (forall k :: 0 <= k < |s.elements| ==> s.elements[k].skill == s.skillList[k])
    && (forall k :: 0 <= k < |s.elements| ==> s.elements[k].body < s.nextBody)
    && (forall a, b :: 0 <= a < b < |s.elements| ==> s.elements[a].body < s.elements[b].body)
    && (s.engine ==> s.skillList == SkillList)
    && (!s.engine ==> s == Init)
    && s.runnerEnabled == s.dropInProgress
    && s.pendingDrops <= |s.elements|
  }

  lemma SkillListFacts()
    ensures |SkillList| == 11
    ensures forall a, b :: 0 <= a < b < |SkillList| ==> SkillList[a].name != SkillList[b].name
  {
  }

  lemma DropKeeps(s: State)
    requires Inv(s)
    ensures Inv(DropNext(s))
  {
    if s.index < |s.skillList| && s.dropInProgress {
      var r := DropNext(s);
      assert forall k :: 0 <= k < |s.elements| ==> r.elements[k] == s.elements[k];
    }
  }

  lemma StepKeeps(s: State, e: Event)
    requires Inv(s) && (e == DropTimerFires ==> s.pendingDrops > 0)
    ensures Inv(Step(s, e))
  {
    match e {
      case ScrollEnter => DropKeeps(StartOnce(s).(dropInProgress := true, runnerEnabled := true));
      case ScrollEnterBack => if s.engine { DropKeeps(s.(dropInProgress := true, runnerEnabled := true)); }
      case DropTimerFires => DropKeeps(s.(pendingDrops := s.pendingDrops - 1));
      case _ =>
    }
  }

  lemma {:induction false} RunKeeps(s: State, es: seq<Event>)
    requires Inv(s)
    ensures Run(s, es).Some? ==> Inv(Run(s, es).value)
    ensures Run(s, es).Some? ==> |Run(s, es).value.elements| <= |SkillList|
    decreases |es|
  {
    if es != [] && !(es[0] == DropTimerFires && s.pendingDrops == 0) {
      StepKeeps(s, es[0]);
      RunKeeps(Step(s, es[0]), es[1..]);
    } else if es == [] {
      assert s.skillList == [] || s.skillList == SkillList;
    }
  }

  /** A drop that may happen appends exactly one element, for the next skill in the
      list, and advances the index by one; otherwise nothing changes. */
  lemma DropAdvances(s: State)
    requires Inv(s)
    ensures var r := DropNext(s);
      && (s.index < |s.skillList| && s.dropInProgress ==>
            && r.index == s.index + 1 && r.elements == s.elements + [Dropped(s.skillList[s.index], s.nextBody)]
            && r.elements[s.index].skill == s.skillList[s.index])
      && (s.index >= |s.skillList| || !s.dropInProgress ==> r == s)
  {
  }

  /** Starting is idempotent; the first start installs the eleven skills with the
      runner stopped and drops nothing. */
  lemma StartOnceIdempotent(s: State)
    requires Inv(s)
    ensures StartOnce(StartOnce(s)) == StartOnce(s)
    ensures !s.engine ==> StartOnce(s).skillList == SkillList && !StartOnce(s).runnerEnabled
                          && StartOnce(s).elements == []
    ensures s.engine ==> StartOnce(s) == s
  {
  }

  /** Before the engine exists pausing and resuming do nothing; afterwards pausing
      stops the drop and the runner, and a timer firing while paused drops nothing. */
  lemma PauseResume(s: State)
    requires Inv(s)
    ensures !s.engine ==> Pause(s) == s && Resume(s) == s
    ensures s.engine ==> !Pause(s).dropInProgress && !Pause(s).runnerEnabled
    ensures s.engine ==> Resume(s).dropInProgress && Resume(s).runnerEnabled
    ensures s.engine && s.pendingDrops > 0 ==> DropFires(Pause(s)).elements == s.elements
  {
  }

  /** `n` drop-timer firings in a row while the drop is in progress. */
  function Drops(s: State, n: nat): (r: State)
    requires Inv(s) && s.engine && s.dropInProgress && s.pendingDrops > 0 && s.index + n <= |SkillList|
    ensures Inv(r) && r.engine && r.dropInProgress && r.pendingDrops == s.pendingDrops
    decreases n
  {
    if n == 0 then s
    else
      StepKeeps(s, DropTimerFires);
      Drops(DropFires(s), n - 1)
  }

  lemma {:induction false} DropsCount(s: State, n: nat)
    requires Inv(s) && s.engine && s.dropInProgress && s.pendingDrops > 0 && s.index + n <= |SkillList|
    ensures Drops(s, n).index == s.index + n
    ensures Drops(s, n).elements[..s.index] == s.elements
    decreases n
  {
    if n > 0 {
      var s1 := DropFires(s);
      DropFiresExtends(s);
      StepKeeps(s, DropTimerFires);
      DropsCount(s1, n - 1);
      PrefixOfPrefix(Drops(s1, n - 1).elements, s1.elements, s.elements);
    }
  }

  /** One firing during a drop in progress extends the element list by one. */
  lemma DropFiresExtends(s: State)
    requires Inv(s) && s.dropInProgress && s.pendingDrops > 0 && s.index < |s.skillList|
    ensures DropFires(s).index == s.index + 1
    ensures DropFires(s).elements[..s.index] == s.elements
  {
  }

  lemma PrefixOfPrefix<T>(a: seq<T>, b: seq<T>, c: seq<T>)
    requires |c| <= |b| <= |a| && a[..|b|] == b && b[..|c|] == c
    ensures a[..|c|] == c
  {
    assert forall k :: 0 <= k < |c| ==> a[k] == b[k];
  }

  /** While the drop stays in progress, the pending timer chain drops every remaining
      skill: after `11 - index` firings all eleven badges exist, in list order. */
  lemma AllSkillsDrop(s: State)
    requires Inv(s) && s.engine && s.dropInProgress && s.pendingDrops > 0
    ensures var r := Drops(s, |SkillList| - s.index);
      && r.index == |SkillList|
      && forall k :: 0 <= k < |SkillList| ==> r.elements[k].skill == SkillList[k]
  {
    DropsCount(s, |SkillList| - s.index);
  }

  /** Entering the section from the initial state drops HTML at once and leaves one
      timer pending; leaving and re-entering while that timer is pending starts a second
      chain, yet every element still matches its skill. */
  lemma SecondChain()
    ensures var s1 := Step(Init, ScrollEnter);
      && s1.elements == [Dropped(Skill("HTML", "html.png"), 0)] && s1.pendingDrops == 1
      && var s3 := Step(Step(s1, ScrollLeave), ScrollEnterBack);
         && s3.pendingDrops == 2 && |s3.elements| == 2 && s3.elements[1].skill == Skill("CSS", "css.png")
         && Inv(s3)
  {
    var s1 := Step(Init, ScrollEnter);
    StepKeeps(Init, ScrollEnter);
    StepKeeps(s1, ScrollLeave);
    StepKeeps(Step(s1, ScrollLeave), ScrollEnterBack);
  }

  // ---------------------------------------------------------------------------
  // The module-level variables, updated in place

  class Scene {
    var engine: bool
    var runnerEnabled: bool
    var skillList: seq<Skill>
    var skillDropIndex: nat
    var dropInProgress: bool
    var skillElements: seq<Dropped>
    var pendingDrops: nat
    var nextBody: nat

    function View(): State
      reads this
    {
      State(engine, runnerEnabled, skillList, skillDropIndex, dropInProgress, skillElements, pendingDrops, nextBody)
    }

    ghost predicate Valid()
      reads this
    {
      Inv(View())
    }

    constructor ()
      ensures Valid() && View() == Init
    {
      engine, runnerEnabled, skillList, skillDropIndex := false, false, [], 0;
      dropInProgress, skillElements, pendingDrops, nextBody := false, [], 0, 0;
    }

    method DropNextSkill()
      requires Valid()
      modifies this
      ensures Valid() && View() == DropNext(old(View()))
    {
      DropKeeps(View());
      if skillDropIndex >= |skillList| || !dropInProgress {
        return;
      }
      var skill := skillList[skillDropIndex];
      skillDropIndex := skillDropIndex + 1;
      var body := nextBody;
      nextBody := nextBody + 1;
      skillElements := skillElements + [Dropped(skill, body)];
      pendingDrops := pendingDrops + 1;
    }

    method ResumeSkillDrop()
      requires Valid()
      modifies this
      ensures Valid() && View() == Resume(old(View()))
    {
      if !engine {
        return;
      }
      dropInProgress := true;
      runnerEnabled := true;
      DropNextSkill();
    }

    method PauseSkillDrop()
      requires Valid()
      modifies this
      ensures Valid() && View() == Pause(old(View()))
    {
      if !engine {
        return;
      }
      dropInProgress := false;
      runnerEnabled := false;
    }

    method StartSkillDropOnce()
      requires Valid()
      modifies this
      ensures Valid() && View() == StartOnce(old(View()))
    {
      if engine {
        return;
      }
      engine := true;
      runnerEnabled := false;
      skillList := SkillList;
    }

    method DropTimerFires()
      requires Valid() && pendingDrops > 0
      modifies this
      ensures Valid() && View() == Step(old(View()), Event.DropTimerFires)
    {
      pendingDrops := pendingDrops - 1;
      if dropInProgress {
        DropNextSkill();
      }
    }

    /** The scroll trigger's `onEnter`. */
    method OnEnter()
      requires Valid()
      modifies this
      ensures Valid() && View() == Step(old(View()), ScrollEnter)
    {
      StartSkillDropOnce();
      ResumeSkillDrop();
    }
  }
}
