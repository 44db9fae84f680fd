/** The engine instance (engine/Instance.cs): the rate parameters of the
    loop, the list of levels whose slot 0 is the drawn level, the passes
    that update every level, the window kept in line with the drawn level,
    and one iteration of the main loop with the clock readings as inputs. */
module Instances {
  import opened Lists
  import opened Settings
  import opened Timing
  import opened Display
  import opened Levels

  /** The SFML window, reduced to what the engine reads and writes. */
  class RenderWindow {
    var size: Vector2u
    const style: Style

    constructor (size: Vector2u, style: Style)
      ensures this.size == size && this.style == style
    {
      this.size := size;
      this.style := style;
    }
  }

  /** The type test of GetLevelsOfClass: exactly the class `target`. */
  function IsExactlyA(target: string): Level -> bool
  {
    (l: Level) => IsExactly(l.kind, target)
  }

  /** Whether the level visited as call `k` of a pass is flagged ToDestroy
      once its script has run. */
  function ScriptFlags(hooks: (nat, Level) -> PassHooks): (nat, Level) -> bool
  {
    (k: nat, l: Level) => hooks(k, l).script.destroy
  }

  /** A level whose settings the window and view can follow: a resolution
      of at least 1x1, and a view of nonzero height. */
  ghost predicate Presentable(l: Level)
    reads l`settings, l.settings
  {
    l.settings.Valid() && l.settings.viewSize.y >= 1
  }

  /** What the frame step of one loop iteration did: its delta, the level it
      drew, the view it set, and that level's actors in the order they were
      drawn. */
  datatype FrameReport = FrameReport(dt: real, level: Level, view: View, drawn: seq<Actor>)

  /** The result of one iteration of the main loop: the loop condition
      failed, the frame step indexed the empty level list, or the steps
      that fired ran (the fixed step with its delta). */
  datatype Outcome = Stopped | Crashed | Ran(frame: Option<FrameReport>, fixedDt: Option<real>)

  /** The level list after one pass with the given hooks over `levels`,
      with `kill` and `add` pending. */
  function AfterPass(levels: seq<Level>, kill: seq<Level>, add: seq<Level>, hooks: (nat, Level) -> PassHooks): seq<Level>
  {
    Drain(Sweep(levels, 0, ScriptFlags(hooks)), kill, add)
  }

  /** The level list after one loop iteration whose frame step and fixed
      step fire as given: the frame pass first, then the fixed pass. */
  function AfterIteration(levels: seq<Level>, kill: seq<Level>, add: seq<Level>, frame: bool, fixed: bool,
                          frameHooks: (nat, Level) -> PassHooks, fixedHooks: (nat, Level) -> PassHooks): seq<Level>
  {
    if frame then
      var mid := AfterPass(levels, kill, add, frameHooks);
      if fixed then AfterPass(mid, [], [], fixedHooks) else mid
    else if fixed then AfterPass(levels, kill, add, fixedHooks)
    else levels
  }

  /** A pass leaves only levels that were listed or pending addition. */
  lemma {:induction false} AfterPassMembers(levels: seq<Level>, kill: seq<Level>, add: seq<Level>,
                                            hooks: (nat, Level) -> PassHooks, l: Level)
    requires l in AfterPass(levels, kill, add, hooks)
    ensures l in levels || l in add
  {
    var swept := Sweep(levels, 0, ScriptFlags(hooks));
    DrainMembers(swept, kill, add, l);
    if l in swept {
      SweepMembers(levels, ScriptFlags(hooks), l);
    }
  }

  class Instance {
    /** The main loop runs while this is set and there is a level. */
    var isOn: bool
    var window: RenderWindow?
    /** The fullscreen flag the current window was built with. */
    var wasWindowFullScreen: bool
    var desiredDt: real
    var desiredFixedDt: real
    var fluctuationTolerancy: real
    /** The levels, slot 0 being the drawn one. */
    var levelCtrls: seq<Level>
    var levelsToAdd: seq<Level>
    var levelsToDestroy: seq<Level>

    /** What the rate setters guarantee. */
    ghost predicate Valid()
      reads this
    {
      CurrentRates().Valid()
    }

    function CurrentRates(): Rates
      reads this
    {
      Rates(desiredDt, desiredFixedDt, fluctuationTolerancy)
    }

    /** The field initialisers: running, a frame interval of 0.004 s, a
        fixed interval of 0.02 s, a tolerance of 0.1, no level and no
        window. */
    constructor ()
      ensures Valid()
      ensures isOn && window == null && !wasWindowFullScreen
      ensures desiredDt == DefaultDesiredDt && desiredFixedDt == DefaultDesiredFixedDt
      ensures fluctuationTolerancy == DefaultTolerance
      ensures levelCtrls == [] && levelsToAdd == [] && levelsToDestroy == []
    {
      isOn := true;
      window := null;
      wasWindowFullScreen := false;
      desiredDt := DefaultDesiredDt;
      desiredFixedDt := DefaultDesiredFixedDt;
      fluctuationTolerancy := DefaultTolerance;
      levelCtrls, levelsToAdd, levelsToDestroy := [], [], [];
    }

    // -------------------------------------------------------------------
    // The rate properties

    /** The UpdateRate getter. */
    function UpdateRate(): (r: Rate)
      reads this
      ensures r.Infinite? <==> desiredDt == 0.0
      ensures r.Finite? ==> r.perSecond * desiredDt == 1.0
    {
      RateForInterval(desiredDt)
    }

    /** The UpdateRate setter: 0 removes the cap on the frame rate. */
    method SetUpdateRate(value: real)
      modifies this`desiredDt
      ensures desiredDt == IntervalForRate(value)
      ensures UpdateRate() == if value == 0.0 then Infinite else Finite(Abs(value))
    {
      if value == 0.0 {
        desiredDt := 0.0;
      } else {
        desiredDt := 1.0 / Abs(value);
      }
      RateRoundTrip(value);
    }

    /** The FixedUpdateRate getter. */
    function FixedUpdateRate(): (r: Rate)
      reads this
      ensures r.Infinite? <==> desiredFixedDt == 0.0
      ensures r.Finite? ==> r.perSecond * desiredFixedDt == 1.0
    {
      RateForInterval(desiredFixedDt)
    }

    /** The FixedUpdateRate setter: 0 disables the fixed step. */
    method SetFixedUpdateRate(value: real)
      modifies this`desiredFixedDt
      ensures desiredFixedDt == IntervalForRate(value)
      ensures FixedUpdateRate() == if value == 0.0 then Infinite else Finite(Abs(value))
    {
      if value == 0.0 {
        desiredFixedDt := 0.0;
      } else {
        desiredFixedDt := 1.0 / Abs(value);
      }
      RateRoundTrip(value);
    }

    /** The FluctuationTolerancy getter. */
    function FluctuationTolerancy(): (t: real)
      reads this
      requires Valid()
      ensures t >= 0.0
    {
      fluctuationTolerancy
    }

    /** The FluctuationTolerancy setter: negative values become 0. */
    method SetFluctuationTolerancy(value: real)
      modifies this`fluctuationTolerancy
      ensures fluctuationTolerancy == ClampTolerance(value)
    {
      fluctuationTolerancy := if 0.0 < value then value else 0.0;
    }

    // -------------------------------------------------------------------
    // The level list

    /** Appends the level at once (there is no buffering of levels) and
        returns the same reference. */
    method InstantiateLevel(level: Level) returns (r: Level)
      modifies this`levelCtrls
      ensures r == level
      ensures levelCtrls == old(levelCtrls) + [level]
    {
      levelCtrls := levelCtrls + [level];
      r := level;
    }

    /** Removes every entry of the level at once, keeping the others in
        order; an absent level changes nothing. */
    method DestroyLevel(level: Level)
      modifies this`levelCtrls
      ensures levelCtrls == Without(old(levelCtrls), level)
      ensures level !in levelCtrls
      ensures IsSubsequence(levelCtrls, old(levelCtrls))
      ensures level !in old(levelCtrls) ==> levelCtrls == old(levelCtrls)
    {
      if level !in levelCtrls {
        WithoutAbsent(levelCtrls, level);
      }
      levelCtrls := RemoveAll(levelCtrls, level);
    }

    /** The levels whose class is exactly `target` (subclasses excluded),
        in list order. */
    method GetLevelsOfClass(target: string) returns (r: seq<Level>)
      ensures forall l :: l in r <==> l in levelCtrls && IsExactly(l.kind, target)
      ensures IsSubsequence(r, levelCtrls)
      ensures r == Filter(levelCtrls, IsExactlyA(target))
      ensures forall l :: l in r ==> IsA(l.kind, target)
    {
      r := [];
      var i := 0;
      while i < |levelCtrls|
        invariant 0 <= i <= |levelCtrls|
        invariant r == Filter(levelCtrls[..i], IsExactlyA(target))
      {
        FilterAppend(levelCtrls[..i], levelCtrls[i], IsExactlyA(target));
        assert levelCtrls[..i + 1] == levelCtrls[..i] + [levelCtrls[i]];
        if IsExactly(levelCtrls[i].kind, target) {
          r := r + [levelCtrls[i]];
        }
        i := i + 1;
      }
      assert levelCtrls[..i] == levelCtrls;
      FilterOrder(levelCtrls, IsExactlyA(target));
      forall l | true
        ensures l in r <==> l in levelCtrls && IsExactly(l.kind, target)
      {
        FilterMembers(levelCtrls, IsExactlyA(target), l);
      }
      forall l | l in r
        ensures IsA(l.kind, target)
      {
        ExactIsA(l.kind, target);
      }
    }

    /** Swaps slot 0 with every slot that holds the level; after the first
        such swap slot 0 holds the level, so the later ones change nothing. */
    method SetDrawnLevel(level: Level)
      modifies this`levelCtrls
      ensures levelCtrls == SwapToFront(old(levelCtrls), level)
      ensures multiset(levelCtrls) == multiset(old(levelCtrls))
      ensures level in old(levelCtrls) ==> levelCtrls[0] == level
      ensures level !in old(levelCtrls) ==> levelCtrls == old(levelCtrls)
    {
      var s0 := levelCtrls;
      var s := s0;
      var i := 0;
      while i < |s|
        invariant 0 <= i <= |s| == |s0|
        invariant s == SwapToFront(s0[..i], level) + s0[i..]
      {
        SwapLoopStep(s0, level, i);
        if s[i] == level {
          var temp := s[0];
          s := s[0 := s[i]];
          s := s[i := temp];
        }
        i := i + 1;
      }
      assert s0[..i] == s0 && s0[i..] == [];
      levelCtrls := s;
    }

    /** Every pending removal, then every pending addition, and both
        buffers emptied. */
    method ManagePendingLevels()
      modifies this`levelCtrls, this`levelsToAdd, this`levelsToDestroy
      ensures levelCtrls == Drain(old(levelCtrls), old(levelsToDestroy), old(levelsToAdd))
      ensures levelsToAdd == [] && levelsToDestroy == []
    {
      levelCtrls := DrainPending(levelCtrls, levelsToDestroy, levelsToAdd);
      levelsToDestroy := [];
      levelsToAdd := [];
    }

    // -------------------------------------------------------------------
    // The passes

    /** One Update or FixedUpdate pass over the levels (the two differ only
        in the hooks): each level in list order runs its own pass, and is
        removed at its index when it is then flagged ToDestroy, the loop
        going on at the next index; then the pending levels. Returns the
        levels whose pass ran, in call order. A listed level that is not
        visited, such as one moved into a slot the loop has passed, is left
        exactly as it was. */
    method Pass(hooks: (nat, Level) -> PassHooks) returns (updated: seq<Level>)
      modifies this`levelCtrls, this`levelsToAdd, this`levelsToDestroy
      modifies levelCtrls
      ensures updated == Visits(old(levelCtrls), 0, ScriptFlags(hooks))
      ensures levelCtrls == AfterPass(old(levelCtrls), old(levelsToDestroy), old(levelsToAdd), hooks)
      ensures levelsToAdd == [] && levelsToDestroy == []
      ensures forall l :: l in old(levelCtrls) && l !in updated ==>
        l.toDestroy == old(l.toDestroy) && l.actorCtrls == old(l.actorCtrls) &&
        l.actorsToAdd == old(l.actorsToAdd) && l.actorsToDestroy == old(l.actorsToDestroy)
      ensures forall l :: l in updated ==> l.toDestroy == ScriptFlags(hooks)(LastCall(updated, l), l)
      ensures forall l :: l in updated ==> l.actorsToAdd == [] && l.actorsToDestroy == []
      ensures forall l :: l in old(levelCtrls) && l in updated && VisitedOnce(updated, l) ==>
        l.actorCtrls == ActorsAfterPass(old(l.actorCtrls), old(l.actorsToDestroy), old(l.actorsToAdd),
                                        hooks(LastCall(updated, l), l))
      ensures forall l :: l in old(levelCtrls) ==> l.settings == old(l.settings)
      ensures forall l :: l in old(levelCtrls) ==> Passed(l.State(), old(l.State()), updated, l, hooks)
    {
      updated := UpdateLevels(hooks);
      forall l | l in updated
        ensures l in old(levelCtrls)
      {
        if l !in old(levelCtrls) {
          VisitsMembers(old(levelCtrls), ScriptFlags(hooks), l);
        }
      }
      ManagePendingLevels();
    }

    /** The level loop of a pass. */
    method UpdateLevels(hooks: (nat, Level) -> PassHooks) returns (updated: seq<Level>)
      modifies this`levelCtrls, levelCtrls
      ensures updated == Visits(old(levelCtrls), 0, ScriptFlags(hooks))
      ensures levelCtrls == Sweep(old(levelCtrls), 0, ScriptFlags(hooks))
      ensures forall l :: l in old(levelCtrls) ==> Passed(l.State(), old(l.State()), updated, l, hooks)
    {
      var flags := ScriptFlags(hooks);
      updated := [];
      var i := 0;
      while i < |levelCtrls|
        invariant |updated| == i
        invariant Sweep(levelCtrls, i, flags) == Sweep(old(levelCtrls), 0, flags)
        invariant updated + Visits(levelCtrls, i, flags) == Visits(old(levelCtrls), 0, flags)
        invariant forall l :: l in levelCtrls ==> l in old(levelCtrls)
        invariant forall l :: l in old(levelCtrls) ==> Passed(l.State(), old(l.State()), updated, l, hooks)
        decreases |levelCtrls| - i
      {
        var level := levelCtrls[i];
        var next := if flags(i, level) then levelCtrls[..i] + levelCtrls[i + 1..] else levelCtrls;
        SweepAdvance(old(levelCtrls), levelCtrls, i, flags, updated, next);
        assert level in old(levelCtrls);
        label Before:
        var _ := level.Pass(hooks(i, level));
        forall l | l in old(levelCtrls)
          ensures Passed(l.State(), old(l.State()), updated + [level], l, hooks)
        {
          PassedStep(old@Before(l.State()), old(l.State()), updated, l, level, hooks);
        }
        if level.toDestroy {
          levelCtrls := levelCtrls[..i] + levelCtrls[i + 1..];
        }
        updated := updated + [level];
        i := i + 1;
      }
      SweepDone(levelCtrls, i, flags);
      assert updated + [] == updated;
    }

    /** Draws level 0, if there is one: its actors, in draw order. */
    method Draw() returns (drawn: Option<seq<Actor>>)
      ensures drawn.Some? <==> |levelCtrls| > 0
      ensures drawn.Some? ==> multiset(drawn.value) == multiset(levelCtrls[0].actorCtrls)
      ensures drawn.Some? ==> SortedByDrawOrder(drawn.value)
    {
      if |levelCtrls| > 0 {
        var order := levelCtrls[0].Draw();
        drawn := Some(order);
      } else {
        drawn := None;
      }
    }

    /** Brings the window in line with the settings of `level`: a new
        window when MustRecreate says so, then its size set to the
        requested resolution; returns the view the window is given. */
    method AssertWindowCorrectness(level: Level) returns (view: View)
      requires Presentable(level)
      modifies this`window, this`wasWindowFullScreen, window
      ensures window != null
      ensures MustRecreate(old(if window == null then None else Some(window.size)),
                old(wasWindowFullScreen), level.settings.fullscreen, level.settings.resolution)
        ==> fresh(window) && window.style == StyleFor(level.settings.resizable, level.settings.fullscreen)
      ensures !MustRecreate(old(if window == null then None else Some(window.size)),
                old(wasWindowFullScreen), level.settings.fullscreen, level.settings.resolution)
        ==> window == old(window)
      ensures wasWindowFullScreen == level.settings.fullscreen
      ensures window.size == level.settings.resolution
      ensures view == ViewFor(window.size, level.settings.viewSize, level.settings.viewCenterPos, level.settings.stretched)
    {
      var settings := level.settings;
      if window == null || wasWindowFullScreen != settings.fullscreen
         || (wasWindowFullScreen && settings.resolution != window.size) {
        window := new RenderWindow(settings.resolution, StyleFor(settings.resizable, settings.fullscreen));
        wasWindowFullScreen := settings.fullscreen;
      }
      window.size := settings.resolution;
      view := ViewFor(window.size, settings.viewSize, settings.viewCenterPos, settings.stretched);
    }

    /** The frame step of the loop: the frame pass, then (when a level is
        left) the window brought in line with level 0 and level 0 drawn.
        No report means slot 0 was read on an empty list. */
    method FrameStep(elapsedFrame: real, frameHooks: (nat, Level) -> PassHooks)
      returns (report: Option<FrameReport>)
      requires forall l :: l in levelCtrls || l in levelsToAdd ==> Presentable(l)
      modifies this`levelCtrls, this`levelsToAdd, this`levelsToDestroy, this`window, this`wasWindowFullScreen, window
      modifies set l | l in levelCtrls + levelsToAdd
      ensures levelCtrls == AfterPass(old(levelCtrls), old(levelsToDestroy), old(levelsToAdd), frameHooks)
      ensures levelsToAdd == [] && levelsToDestroy == []
      ensures forall l :: l in levelCtrls ==> l in old(levelCtrls) || l in old(levelsToAdd)
      ensures forall l :: l in old(levelCtrls) ==>
        Passed(l.State(), old(l.State()), Visits(old(levelCtrls), 0, ScriptFlags(frameHooks)), l, frameHooks)
      ensures forall l :: l in old(levelsToAdd) && l !in old(levelCtrls) ==> l.State() == old(l.State())
      ensures report.None? <==> levelCtrls == []
      ensures report.Some? ==> report.value.level == levelCtrls[0]
      ensures report.Some? ==> report.value.dt == elapsedFrame && SortedByDrawOrder(report.value.drawn)
      ensures report.Some? ==> multiset(report.value.drawn) == multiset(levelCtrls[0].actorCtrls)
      ensures report.Some? ==> window != null && wasWindowFullScreen == levelCtrls[0].settings.fullscreen
      ensures report.Some? ==>
        window != null && Presentable(levelCtrls[0]) && window.size == levelCtrls[0].settings.resolution &&
        report.value.view == ViewFor(window.size, levelCtrls[0].settings.viewSize,
                                     levelCtrls[0].settings.viewCenterPos, levelCtrls[0].settings.stretched)
    {
      forall l | l in levelCtrls
        ensures l in old(levelCtrls + levelsToAdd)
      {
      }
      var _ := Pass(frameHooks);
      forall l | l in levelCtrls
        ensures l in old(levelCtrls) || l in old(levelsToAdd)
      {
        AfterPassMembers(old(levelCtrls), old(levelsToDestroy), old(levelsToAdd), frameHooks, l);
      }
      if |levelCtrls| == 0 {
        return None;
      }
      var view := AssertWindowCorrectness(levelCtrls[0]);
      var drawn := Draw();
      report := Some(FrameReport(elapsedFrame, levelCtrls[0], view, drawn.value));
    }

    /** The fixed step of the loop: when it fires, the fixed pass, handed
        the elapsed time capped at the desired fixed interval stretched by
        the tolerance. */
    method FixedStep(elapsedFixed: real, fixedHooks: (nat, Level) -> PassHooks) returns (dt: Option<real>)
      modifies this`levelCtrls, this`levelsToAdd, this`levelsToDestroy
      modifies set l | l in levelCtrls
      ensures dt.Some? <==> FixedFires(elapsedFixed, desiredFixedDt)
      ensures dt.Some? ==> dt.value == Min(FixedCap(desiredFixedDt, fluctuationTolerancy), elapsedFixed)
      ensures dt.Some? ==> levelCtrls == AfterPass(old(levelCtrls), old(levelsToDestroy), old(levelsToAdd), fixedHooks)
      ensures dt.Some? ==> levelsToAdd == [] && levelsToDestroy == []
      ensures dt.Some? ==> forall l :: l in old(levelCtrls) ==>
        Passed(l.State(), old(l.State()), Visits(old(levelCtrls), 0, ScriptFlags(fixedHooks)), l, fixedHooks)
      ensures forall l :: l in old(levelCtrls) ==> l.settings == old(l.settings)
      ensures dt.None? ==> unchanged(this) && forall l :: l in old(levelCtrls) ==> unchanged(l)
    {
      dt := None;
      if desiredFixedDt != 0.0 && elapsedFixed > desiredFixedDt {
        dt := Some(Min(desiredFixedDt * (1.0 + fluctuationTolerancy), elapsedFixed));
        var _ := Pass(fixedHooks);
      }
    }

    /** One iteration of the main loop, given the time elapsed on the frame
        clock and on the fixed clock: nothing when the loop condition fails;
        otherwise the frame step when it fires, which fails when it leaves
        no level, and then the fixed step with its clamped delta when it
        fires. */
    method Iterate(elapsedFrame: real, elapsedFixed: real,
                   frameHooks: (nat, Level) -> PassHooks, fixedHooks: (nat, Level) -> PassHooks)
      returns (outcome: Outcome)
      requires Valid()
      requires forall l :: l in levelCtrls || l in levelsToAdd ==> Presentable(l)
      modifies this`levelCtrls, this`levelsToAdd, this`levelsToDestroy, this`window, this`wasWindowFullScreen, window
      modifies set l | l in levelCtrls + levelsToAdd
      ensures outcome.Stopped? <==> !(old(isOn) && |old(levelCtrls)| > 0)
      ensures outcome.Stopped? ==> unchanged(this) && (old(window) != null ==> unchanged(old(window)))
      ensures outcome.Stopped? ==> forall l :: l in old(levelCtrls) || l in old(levelsToAdd) ==> unchanged(l)
      ensures outcome.Crashed? <==>
        (!outcome.Stopped? && FrameFires(elapsedFrame, desiredDt) &&
         AfterPass(old(levelCtrls), old(levelsToDestroy), old(levelsToAdd), frameHooks) == [])
      ensures outcome.Ran? ==> (outcome.frame.Some? <==> FrameFires(elapsedFrame, desiredDt))
      ensures outcome.Ran? && outcome.frame.Some? ==>
        outcome.frame.value.dt == elapsedFrame && SortedByDrawOrder(outcome.frame.value.drawn)
      ensures outcome.Ran? && outcome.frame.Some? ==>
        var drawnLevel := outcome.frame.value.level;
        AfterPass(old(levelCtrls), old(levelsToDestroy), old(levelsToAdd), frameHooks) != [] &&
        drawnLevel == AfterPass(old(levelCtrls), old(levelsToDestroy), old(levelsToAdd), frameHooks)[0] &&
        window != null && Presentable(drawnLevel) &&
        window.size == drawnLevel.settings.resolution && wasWindowFullScreen == drawnLevel.settings.fullscreen &&
        outcome.frame.value.view == ViewFor(window.size, drawnLevel.settings.viewSize,
                                            drawnLevel.settings.viewCenterPos, drawnLevel.settings.stretched)
      ensures outcome.Ran? && outcome.frame.Some? && outcome.fixedDt.None? ==>
        multiset(outcome.frame.value.drawn) == multiset(outcome.frame.value.level.actorCtrls)
      ensures outcome.Ran? && outcome.frame.Some? && outcome.fixedDt.None? ==> forall l :: l in old(levelCtrls) ==>
        Passed(l.State(), old(l.State()), Visits(old(levelCtrls), 0, ScriptFlags(frameHooks)), l, frameHooks)
      ensures outcome.Ran? && outcome.frame.None? && outcome.fixedDt.Some? ==> forall l :: l in old(levelCtrls) ==>
        Passed(l.State(), old(l.State()), Visits(old(levelCtrls), 0, ScriptFlags(fixedHooks)), l, fixedHooks)
      ensures outcome.Ran? && outcome.frame.None? && outcome.fixedDt.None? ==>
        forall l :: l in old(levelCtrls) ==> l.State() == old(l.State())
      ensures outcome.Ran? ==> outcome.fixedDt == Schedule(CurrentRates(), elapsedFrame, elapsedFixed).fixed
      ensures outcome.Ran? ==> levelCtrls == AfterIteration(old(levelCtrls), old(levelsToDestroy), old(levelsToAdd),
        FrameFires(elapsedFrame, desiredDt), FixedFires(elapsedFixed, desiredFixedDt), frameHooks, fixedHooks)
    {
      if !(isOn && |levelCtrls| > 0) {
        return Stopped;
      }
      var frame: Option<FrameReport> := None;
      if elapsedFrame > desiredDt {
        frame := FrameStep(elapsedFrame, frameHooks);
        if frame.None? {
          return Crashed;
        }
      }
      var fixedDt := FixedStep(elapsedFixed, fixedHooks);
      outcome := Ran(frame, fixedDt);
    }
  }

  /** The call number of the last visit of `l` in `calls`. */
  function LastCall(calls: seq<Level>, l: Level): (k: nat)
    requires l in calls
    ensures k < |calls| && calls[k] == l
    ensures forall j :: k < j < |calls| ==> calls[j] != l
    decreases |calls|
  {
    if calls[|calls| - 1] == l then |calls| - 1
    else
      assert calls == calls[..|calls| - 1] + [calls[|calls| - 1]];
      LastCall(calls[..|calls| - 1], l)
  }

  /** Whether the last visit of `l` in `calls` is also its first. */
  predicate VisitedOnce(calls: seq<Level>, l: Level)
    requires l in calls
  {
    l !in calls[..LastCall(calls, l)]
  }

  /** What the level passes recorded in `calls` have done to `l`, whose
      state was `before` and is `now`: a level not visited is untouched; a
      visited one keeps its settings, has the ToDestroy its last script set
      and empty buffers, and, when it was visited once, the actors one level
      pass leaves. */
  predicate Passed(now: LevelState, before: LevelState, calls: seq<Level>, l: Level,
                   hooks: (nat, Level) -> PassHooks)
  {
    if l !in calls then now == before
    else
      var k := LastCall(calls, l);
      now.settings == before.settings && now.toDestroy == hooks(k, l).script.destroy &&
      now.toAdd == [] && now.toKill == [] &&
      (VisitedOnce(calls, l) ==> now.actors == ActorsAfterPass(before.actors, before.toKill, before.toAdd, hooks(k, l)))
  }

  /** One more level pass, for level `m` as call `|calls|`, keeps Passed for
      every level: `m` has had one more pass and the others are as they were. */
  lemma PassedStep(now: LevelState, before: LevelState, calls: seq<Level>, l: Level, m: Level,
                   hooks: (nat, Level) -> PassHooks)
    requires Passed(now, before, calls, l, hooks)
    ensures l != m ==> Passed(now, before, calls + [m], l, hooks)
    ensures l == m ==> Passed(LevelPass(now, hooks(|calls|, m)), before, calls + [m], l, hooks)
  {
    LastCallAppend(calls, m);
    if l != m && l in calls {
      var k := LastCall(calls, l);
      assert (calls + [m])[..k] == calls[..k];
    }
    if l == m {
      assert (calls + [m])[..|calls|] == calls;
    }
  }

  lemma LastCallAppend(calls: seq<Level>, l: Level)
    ensures LastCall(calls + [l], l) == |calls|
    ensures forall m :: m in calls && m != l ==> LastCall(calls + [l], m) == LastCall(calls, m)
  {
    forall m | m in calls && m != l
      ensures LastCall(calls + [l], m) == LastCall(calls, m)
    {
      assert (calls + [l])[..|calls|] == calls;
    }
  }
}
