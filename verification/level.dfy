/** A level and its actors (engine/Level.cs): the actor list, the two
    pending buffers that instantiation and destruction write to, the update
    pass that runs the level script and then every actor, and the draw pass
    that orders a copy of the actor list by draw order. */
module Levels {
  import opened Lists
  import opened Settings

  /** The run-time class of a level or actor: its own name and the names of
      every class and interface it derives from or implements. */
  datatype RuntimeType = RuntimeType(name: string, bases: set<string>)

  /** C#'s `x is T`: the class itself or one it derives from. */
  predicate IsA(t: RuntimeType, target: string)
  {
    target == t.name || target in t.bases
  }

  /** C#'s `x.GetType() == typeof(T)`: the class itself only. */
  predicate IsExactly(t: RuntimeType, target: string)
  {
    t.name == target
  }

  lemma ExactIsA(t: RuntimeType, target: string)
    requires IsExactly(t, target)
    ensures IsA(t, target)
  {
  }

  /** An actor: an object with an identity, a class, and the layer it is
      drawn on (higher is drawn later, on top). */
  class Actor {
    const kind: RuntimeType
    var drawOrder: int

    constructor (kind: RuntimeType, drawOrder: int)
      ensures this.kind == kind && this.drawOrder == drawOrder
    {
      this.kind := kind;
      this.drawOrder := drawOrder;
    }
  }

  /** What one user hook (a level script or an actor's Update or
      FixedUpdate) does to the engine: the value of its own ToDestroy once
      it has run, the actors it instantiates and the actors it destroys, in
      call order. */
  datatype Effect = Effect(destroy: bool, spawn: seq<Actor>, kill: seq<Actor>)

  /** The hooks one level pass runs: the level script, then the hook of
      each visited actor, given by call number and actor. */
  datatype PassHooks = PassHooks(script: Effect, actor: (nat, Actor) -> Effect)

  /** The state of a level that its update pass reads and writes, as a
      value: its settings, its ToDestroy, its live actors and its two
      pending buffers. */
  datatype LevelState = LevelState(settings: WindowSettings, toDestroy: bool,
                                   actors: seq<Actor>, toAdd: seq<Actor>, toKill: seq<Actor>)

  /** Whether the actor visited as call `k` asks to be destroyed. */
  function DestroyFlags(hook: (nat, Actor) -> Effect): (nat, Actor) -> bool
  {
    (k: nat, a: Actor) => hook(k, a).destroy
  }

  /** The instantiations requested by the hooks of the visited actors, in
      call order. */
  function Spawned(calls: seq<Actor>, hook: (nat, Actor) -> Effect): seq<Actor>
    decreases |calls|
  {
    if calls == [] then []
    else Spawned(calls[..|calls| - 1], hook) + hook(|calls| - 1, calls[|calls| - 1]).spawn
  }

  /** The destructions requested by the hooks of the visited actors, in
      call order. */
  function Killed(calls: seq<Actor>, hook: (nat, Actor) -> Effect): seq<Actor>
    decreases |calls|
  {
    if calls == [] then []
    else Killed(calls[..|calls| - 1], hook) + hook(|calls| - 1, calls[|calls| - 1]).kill
  }

  /** The type test of GetActorsOfClass: the actor is a `target`. */
  function IsAn(target: string): Actor -> bool
  {
    (a: Actor) => IsA(a.kind, target)
  }

  /** One more visited actor adds its requests at the end. */
  lemma CallsAppend(calls: seq<Actor>, a: Actor, hook: (nat, Actor) -> Effect)
    ensures Spawned(calls + [a], hook) == Spawned(calls, hook) + hook(|calls|, a).spawn
    ensures Killed(calls + [a], hook) == Killed(calls, hook) + hook(|calls|, a).kill
  {
    assert (calls + [a])[..|calls|] == calls;
  }

  /** The live actors one level pass leaves, starting from `actors` with
      `kill` and `add` pending: the actors that survive the actor loop, less
      every destruction, followed by every instantiation, where the requests
      are those already queued, then the script's, then the visited actors'
      in call order. */
  function ActorsAfterPass(actors: seq<Actor>, kill: seq<Actor>, add: seq<Actor>, hooks: PassHooks): seq<Actor>
  {
    var flags := DestroyFlags(hooks.actor);
    var calls := Visits(actors, 0, flags);
    Drain(Sweep(actors, 0, flags),
          kill + hooks.script.kill + Killed(calls, hooks.actor),
          add + hooks.script.spawn + Spawned(calls, hooks.actor))
  }

  /** The state one level pass leaves: the settings kept, ToDestroy as the
      script set it, the actors as above and both buffers empty. */
  function LevelPass(s: LevelState, hooks: PassHooks): LevelState
  {
    LevelState(s.settings, hooks.script.destroy, ActorsAfterPass(s.actors, s.toKill, s.toAdd, hooks), [], [])
  }

  /** The loop step of the actor loop: after the actor at index `i` has
      been handled, the invariants on the list, the visits and both buffers
      hold again at `i + 1`. */
  lemma ActorLoopStep(s0: seq<Actor>, s: seq<Actor>, i: nat, hook: (nat, Actor) -> Effect,
                      updated: seq<Actor>, add0: seq<Actor>, kill0: seq<Actor>, next: seq<Actor>)
    requires i < |s| && |updated| == i
    requires next == if hook(i, s[i]).destroy then s[..i] + s[i + 1..] else s
    requires Sweep(s, i, DestroyFlags(hook)) == Sweep(s0, 0, DestroyFlags(hook))
    requires updated + Visits(s, i, DestroyFlags(hook)) == Visits(s0, 0, DestroyFlags(hook))
    ensures Sweep(next, i + 1, DestroyFlags(hook)) == Sweep(s0, 0, DestroyFlags(hook))
    ensures (updated + [s[i]]) + Visits(next, i + 1, DestroyFlags(hook)) == Visits(s0, 0, DestroyFlags(hook))
    ensures (add0 + Spawned(updated, hook)) + hook(i, s[i]).spawn == add0 + Spawned(updated + [s[i]], hook)
    ensures (kill0 + Killed(updated, hook)) + hook(i, s[i]).kill == kill0 + Killed(updated + [s[i]], hook)
  {
    SweepAdvance(s0, s, i, DestroyFlags(hook), updated, next);
    CallsAppend(updated, s[i], hook);
  }

  /** Lower draw orders first. */
  predicate SortedByDrawOrder(s: seq<Actor>)
    reads s
  {
    forall p, q :: 0 <= p < q < |s| ==> s[p].drawOrder <= s[q].drawOrder
  }

  class Level {
    const kind: RuntimeType
    /** The window settings this level asks for while it is drawn. */
    var settings: WindowSettings
    /** Set by the level's own scripts; the engine removes the level after
        the script has set it. */
    var toDestroy: bool
    /** The live actors, in insertion order. */
    var actorCtrls: seq<Actor>
    /** Instantiations and destructions requested since the last pass. */
    var actorsToAdd: seq<Actor>
    var actorsToDestroy: seq<Actor>

    /** Every mutable field of the level, as a value. */
    ghost function State(): LevelState
      reads this
    {
      LevelState(settings, toDestroy, actorCtrls, actorsToAdd, actorsToDestroy)
    }

    constructor (kind: RuntimeType)
      ensures this.kind == kind && fresh(settings) && settings.Valid()
      ensures settings.resolution == Vector2u(640, 480) && settings.viewSize == Vector2u(640, 480)
      ensures settings.viewCenterPos == Vector2i(320, 240)
      ensures !settings.stretched && !settings.fullscreen && !settings.resizable
      ensures !toDestroy && actorCtrls == [] && actorsToAdd == [] && actorsToDestroy == []
    {
      this.kind := kind;
      settings := new WindowSettings();
      toDestroy := false;
      actorCtrls, actorsToAdd, actorsToDestroy := [], [], [];
    }

    /** Only queues the actor; it joins the live list at the end of the
        current pass. */
    method InstantiateActor(act: Actor) returns (r: Actor)
      modifies this`actorsToAdd
      ensures r == act
      ensures actorsToAdd == old(actorsToAdd) + [act]
    {
      actorsToAdd := actorsToAdd + [act];
      r := act;
    }

    /** Only queues the destruction; the actor stays live until the end of
        the current pass. */
    method DestroyActor(act: Actor)
      modifies this`actorsToDestroy
      ensures actorsToDestroy == old(actorsToDestroy) + [act]
    {
      actorsToDestroy := actorsToDestroy + [act];
    }

    /** The live actors (not the pending ones) that are a `target`, in
        list order. */
    method GetActorsOfClass(target: string) returns (r: seq<Actor>)
      ensures forall a :: a in r <==> a in actorCtrls && IsA(a.kind, target)
      ensures IsSubsequence(r, actorCtrls)
      ensures r == Filter(actorCtrls, IsAn(target))
    {
      r := [];
      var i := 0;
      while i < |actorCtrls|
        invariant 0 <= i <= |actorCtrls|
        invariant r == Filter(actorCtrls[..i], IsAn(target))
      {
        FilterAppend(actorCtrls[..i], actorCtrls[i], IsAn(target));
        assert actorCtrls[..i + 1] == actorCtrls[..i] + [actorCtrls[i]];
        if IsA(actorCtrls[i].kind, target) {
          r := r + [actorCtrls[i]];
        }
        i := i + 1;
      }
      assert actorCtrls[..i] == actorCtrls;
      FilterOrder(actorCtrls, IsAn(target));
      forall a | true
        ensures a in r <==> a in actorCtrls && IsA(a.kind, target)
      {
        FilterMembers(actorCtrls, IsAn(target), a);
      }
    }

    /** The end of a pass: every queued destruction, then every queued
        instantiation, and both queues emptied. */
    method ManagePendingActorActions()
      modifies this`actorCtrls, this`actorsToAdd, this`actorsToDestroy
      ensures actorCtrls == Drain(old(actorCtrls), old(actorsToDestroy), old(actorsToAdd))
      ensures actorsToAdd == [] && actorsToDestroy == []
    {
      actorCtrls := DrainPending(actorCtrls, actorsToDestroy, actorsToAdd);
      actorsToDestroy := [];
      actorsToAdd := [];
    }

    /** One Update or FixedUpdate pass of the level (the two differ only in
        which user hooks run, and those are given by `hooks`): the script,
        then each actor in list order with an actor removed at its index as
        soon as its hook asks for it, then the queued actions. Returns the
        actors whose hook ran, in call order. */
    method Pass(hooks: PassHooks) returns (updated: seq<Actor>)
      modifies this`toDestroy, this`actorCtrls, this`actorsToAdd, this`actorsToDestroy
      ensures toDestroy == hooks.script.destroy
      ensures updated == Visits(old(actorCtrls), 0, DestroyFlags(hooks.actor))
      ensures actorCtrls == Drain(
        Sweep(old(actorCtrls), 0, DestroyFlags(hooks.actor)),
        old(actorsToDestroy) + hooks.script.kill + Killed(updated, hooks.actor),
        old(actorsToAdd) + hooks.script.spawn + Spawned(updated, hooks.actor))
      ensures actorsToAdd == [] && actorsToDestroy == []
      ensures State() == LevelPass(old(State()), hooks)
    {
      // the level script
      toDestroy := hooks.script.destroy;
      actorsToAdd := actorsToAdd + hooks.script.spawn;
      actorsToDestroy := actorsToDestroy + hooks.script.kill;
      // the actors
      updated := UpdateActors(hooks.actor);
      ManagePendingActorActions();
    }

    /** The actor loop of a pass. */
    method UpdateActors(hook: (nat, Actor) -> Effect) returns (updated: seq<Actor>)
      modifies this`actorCtrls, this`actorsToAdd, this`actorsToDestroy
      ensures updated == Visits(old(actorCtrls), 0, DestroyFlags(hook))
      ensures actorCtrls == Sweep(old(actorCtrls), 0, DestroyFlags(hook))
      ensures actorsToAdd == old(actorsToAdd) + Spawned(updated, hook)
      ensures actorsToDestroy == old(actorsToDestroy) + Killed(updated, hook)
    {
      var flags := DestroyFlags(hook);
      // The hooks are given as data and read nothing, so the list and the
      // buffers can be held in locals through the loop and stored after it.
      var live0, add0, kill0 := actorCtrls, actorsToAdd, actorsToDestroy;
      var live, add, kill := live0, add0, kill0;
      updated := [];
      var i := 0;
      while i < |live|
        invariant |updated| == i
        invariant Sweep(live, i, flags) == Sweep(live0, 0, flags)
        invariant updated + Visits(live, i, flags) == Visits(live0, 0, flags)
        invariant add == add0 + Spawned(updated, hook)
        invariant kill == kill0 + Killed(updated, hook)
        decreases |live| - i
      {
        var act := live[i];
        var effect := hook(i, act);
        var next := if effect.destroy then live[..i] + live[i + 1..] else live;
        ActorLoopStep(live0, live, i, hook, updated, add0, kill0, next);
        // the hook's requests are queued, and the actor is removed at its
        // index when it asks for it
        live, add, kill := next, add + effect.spawn, kill + effect.kill;
        updated := updated + [act];
        i := i + 1;
      }
      SweepDone(live, i, flags);
      assert updated + [] == updated;
      actorCtrls, actorsToAdd, actorsToDestroy := live, add, kill;
    }

    /** The draw order of a pass: a copy of the live actors sorted by draw
        order. The list itself is left as it is, and the sort is not stable,
        so nothing is promised about actors with equal draw orders. */
    method Draw() returns (drawn: seq<Actor>)
      ensures multiset(drawn) == multiset(actorCtrls)
      ensures SortedByDrawOrder(drawn)
    {
      var live := actorCtrls;
      var drawables := new Actor[|live|](i requires 0 <= i < |live| => live[i]);
      assert drawables[..] == live;
      SortByDrawOrder(drawables);
      drawn := drawables[..];
    }
  }

  /** List.Sort with the draw-order comparison, as an insertion sort. */
  method SortByDrawOrder(a: array<Actor>)
    modifies a
    ensures SortedByDrawOrder(a[..])
    ensures multiset(a[..]) == old(multiset(a[..]))
  {
    var i := 0;
    while i < a.Length
      invariant 0 <= i <= a.Length
      invariant forall p, q :: 0 <= p < q < i ==> a[p].drawOrder <= a[q].drawOrder
      invariant multiset(a[..]) == old(multiset(a[..]))
    {
      var j := i;
      while j > 0 && a[j - 1].drawOrder > a[j].drawOrder
        invariant 0 <= j <= i
        invariant forall p, q :: 0 <= p < q <= i && q != j && p != j ==> a[p].drawOrder <= a[q].drawOrder
        invariant forall q :: j < q <= i ==> a[j].drawOrder <= a[q].drawOrder
        invariant multiset(a[..]) == old(multiset(a[..]))
      {
        Swap(a, j - 1, j);
        j := j - 1;
      }
      i := i + 1;
    }
  }

  method Swap(a: array<Actor>, i: int, j: int)
    requires 0 <= i < j < a.Length
    modifies a
    ensures a[i] == old(a[j]) && a[j] == old(a[i])
    ensures forall m :: 0 <= m < a.Length && m != i && m != j ==> a[m] == old(a[m])
    ensures multiset(a[..]) == old(multiset(a[..]))
  {
    a[i], a[j] := a[j], a[i];
  }
}
