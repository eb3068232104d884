/** What the scheduler of SceneDB.cpp guarantees, proved on the value model:
    what a callback can and cannot change while a pass runs, which entries a
    pass skips, that `OnStart` runs at most once per component, what destroy,
    instantiate, component removal and the rigidbody queue do, the order of
    the steps of a frame, and the lookups. */
module SceneLaws {
  import opened Wrappers
  import StringOrder
  import opened SceneModel

  // ------------------------------------------------------- cache routing

  /** Where `addComponentToCaches` registers a component: a Rigidbody only
      in the update and late-update caches, any other userdata and a
      disabled table nowhere, and an enabled table in the start cache exactly
      when it has an `OnStart` and has not started; no other entry changes. */
  lemma CacheRouting(m: Caches, ck: ComponentKey, ref: nat, c: Component, k: ComponentKey)
    ensures var r := AddToCaches(m, ck, ref, c);
      && (k != ck ==> (k in r.onStart <==> k in m.onStart) && (k in r.onUpdate <==> k in m.onUpdate)
                      && (k in r.onLateUpdate <==> k in m.onLateUpdate))
      && (c.kind == RigidbodyUserdata ==>
            r.onStart == m.onStart && r.onUpdate[ck] == ref && r.onLateUpdate[ck] == ref)
      && (c.kind == OtherUserdata || (c.kind == ScriptTable && !c.enabled) ==> r == m)
      && (c.kind == ScriptTable && c.enabled ==>
            (ck in r.onStart && r.onStart[ck] == ref <==> (c.hasOnStart && !c.onStart) || (ck in m.onStart && m.onStart[ck] == ref))
            && (c.hasOnUpdate ==> ck in r.onUpdate && r.onUpdate[ck] == ref)
            && (c.hasOnLateUpdate ==> ck in r.onLateUpdate && r.onLateUpdate[ck] == ref))
  {
  }

  // --------------------------------------------------- growth relation

  /** Handles are below `nextRef` and actor ids below `idCtr`: what makes
      the next handle and the next id fresh. */
  ghost predicate Sane(s: Scene)
  {
    (forall r :: r in s.heap ==> r < s.nextRef) && (forall id :: id in s.actors ==> id < s.idCtr)
  }

  /** How a component may change while the scene runs: its kind and creation
      stamp never change, a disabled one stays disabled and a started one
      stays started. */
  predicate Stays(c: Component, d: Component)
  {
    d.kind == c.kind && d.frameAdded == c.frameAdded && d.newAddition == c.newAddition
    && (!c.enabled ==> !d.enabled) && (c.onStart ==> d.onStart)
  }

  /** A cache entry of an actor below `bound` is never added or replaced. */
  ghost predicate CacheKept(m: map<ComponentKey, nat>, n: map<ComponentKey, nat>, bound: int)
  {
    forall ck :: ck in n && ck.actorId < bound ==> ck in m && n[ck] == m[ck]
  }

  /** Actors are kept, a destroyed actor stays destroyed, and no actor below
      `bound` appears. */
  ghost predicate ActorsKept(s: Scene, t: Scene, bound: int)
  {
    && (forall id :: id in s.actors ==> id in t.actors && (s.actors[id].destroyed ==> t.actors[id].destroyed))
    && (forall id :: id in t.actors && id < bound ==> id in s.actors)
  }

  /** Components are kept and change only as `Stays` allows. */
  ghost predicate HeapKept(s: Scene, t: Scene)
  {
    forall r :: r in s.heap ==> r in t.heap && Stays(s.heap[r], t.heap[r])
  }

  /** `t` is reachable from `s` by callbacks, destroys and instantiations:
      the trace grows, actors and components are kept, flags only move one
      way, and nothing appears for an actor below `bound`. */
  ghost predicate Evolves(s: Scene, t: Scene, bound: int)
  {
    && s.frame == t.frame && s.idCtr <= t.idCtr && s.nextRef <= t.nextRef
    && s.trace <= t.trace && s.actorIdVec == t.actorIdVec
    && ActorsKept(s, t, bound)
    && HeapKept(s, t)
    && CacheKept(s.caches.onStart, t.caches.onStart, bound)
    && CacheKept(s.caches.onUpdate, t.caches.onUpdate, bound)
    && CacheKept(s.caches.onLateUpdate, t.caches.onLateUpdate, bound)
  }

  predicate IsDestroyCallback(cb: Callback)
  {
    cb == OnDestroy || cb == RigidbodyOnDestroy
  }

  /** Every event added between `s` and `t` belongs to `step` and is either a
      destroy callback or a `cb` callback. */
  ghost predicate NewEvents(s: Scene, t: Scene, step: Step, cb: Callback)
  {
    forall i :: |s.trace| <= i < |t.trace| ==>
      t.trace[i].step == step && (t.trace[i].callback == cb || IsDestroyCallback(t.trace[i].callback))
  }

  /** What a script's actions may do to a scene. */
  ghost predicate Reacts(s: Scene, t: Scene, step: Step)
  {
    Sane(t) && Evolves(s, t, s.idCtr) && NewEvents(s, t, step, OnDestroy)
  }

  lemma EvolvesTrans(a: Scene, b: Scene, c: Scene, x: int, y: int)
    requires Evolves(a, b, x) && Evolves(b, c, y) && x <= y
    ensures Evolves(a, c, x)
  {
    assert ActorsKept(a, c, x);
    assert HeapKept(a, c);
    assert CacheKept(a.caches.onStart, c.caches.onStart, x);
    assert CacheKept(a.caches.onUpdate, c.caches.onUpdate, x);
    assert CacheKept(a.caches.onLateUpdate, c.caches.onLateUpdate, x);
  }

  lemma NewEventsTrans(a: Scene, b: Scene, c: Scene, step: Step, cb: Callback)
    requires a.trace <= b.trace <= c.trace
    requires NewEvents(a, b, step, cb) && NewEvents(b, c, step, cb)
    ensures NewEvents(a, c, step, cb)
  {
    forall i | |a.trace| <= i < |c.trace|
      ensures c.trace[i].step == step && (c.trace[i].callback == cb || IsDestroyCallback(c.trace[i].callback))
    {
      if i < |b.trace| {
        assert c.trace[i] == b.trace[i];
      }
    }
  }

  lemma ReactsTrans(a: Scene, b: Scene, c: Scene, step: Step)
    requires Reacts(a, b, step) && Reacts(b, c, step)
    ensures Reacts(a, c, step)
  {
    EvolvesTrans(a, b, c, a.idCtr, b.idCtr);
    NewEventsTrans(a, b, c, step, OnDestroy);
  }

  // ------------------------------------------------------ the reactions

  lemma AppendReacts(s: Scene, evs: seq<Event>, step: Step)
    requires Sane(s)
    requires forall i :: 0 <= i < |evs| ==> evs[i].step == step && IsDestroyCallback(evs[i].callback)
    ensures Reacts(s, s.(trace := s.trace + evs), step)
  {
    var t := s.(trace := s.trace + evs);
    assert s.trace <= t.trace;
    forall i | |s.trace| <= i < |t.trace|
      ensures t.trace[i].step == step && IsDestroyCallback(t.trace[i].callback)
    {
      assert t.trace[i] == evs[i - |s.trace|];
    }
  }

  lemma DisableReacts(s: Scene, ref: nat, step: Step)
    requires Sane(s) && ref in s.heap
    ensures Reacts(s, s.(heap := s.heap[ref := s.heap[ref].(enabled := false)]), step)
  {
  }

  lemma RemoveFromCachesReacts(s: Scene, ck: ComponentKey, step: Step)
    requires Sane(s)
    ensures Reacts(s, s.(caches := RemoveFromCaches(s.caches, ck)), step)
  {
  }

  lemma CallOnDestroyReacts(s: Scene, ck: ComponentKey, ref: nat, c: Component, step: Step, env: Env)
    requires Sane(s)
    ensures var t := CallOnDestroy(s, ck, ref, c, step, env);
      Reacts(s, t, step) && t == s.(trace := t.trace)
  {
    if c.hasOnDestroy {
      AppendReacts(s, [Event(step, OnDestroy, ck, ref, env.script(|s.trace|, OnDestroy, ck).raises)], step);
    } else if c.kind == RigidbodyUserdata {
      AppendReacts(s, [Event(step, RigidbodyOnDestroy, ck, ref, false)], step);
    }
  }

  lemma DestroyKeyReacts(s: Scene, id: int, k: string, step: Step, env: Env)
    requires Sane(s)
    ensures var t := DestroyKey(s, id, k, step, env);
      Reacts(s, t, step) && t.actors == s.actors && t.idCtr == s.idCtr && t.actorsToDestroy == s.actorsToDestroy
  {
    if id in s.actors && k in s.actors[id].components {
      var ref := s.actors[id].components[k];
      var ck := ComponentKey(id, k);
      if ref !in s.heap {
        RemoveFromCachesReacts(s, ck, step);
      } else {
        var c := s.heap[ref];
        var s1 := CallOnDestroy(s, ck, ref, c, step, env);
        CallOnDestroyReacts(s, ck, ref, c, step, env);
        var s2 := s1.(heap := s1.heap[ref := c.(enabled := false)]);
        DisableReacts(s1, ref, step);
        RemoveFromCachesReacts(s2, ck, step);
        ReactsTrans(s, s1, s2, step);
        ReactsTrans(s, s2, s2.(caches := RemoveFromCaches(s2.caches, ck)), step);
      }
    }
  }

  lemma {:induction false} DestroyKeysReacts(s: Scene, id: int, keys: seq<string>, step: Step, env: Env)
    requires Sane(s)
    ensures var t := DestroyKeys(s, id, keys, step, env);
      Reacts(s, t, step) && t.actors == s.actors && t.idCtr == s.idCtr && t.actorsToDestroy == s.actorsToDestroy
    decreases |keys|
  {
    if |keys| > 0 {
      var m := DestroyKeys(s, id, keys[..|keys| - 1], step, env);
      DestroyKeysReacts(s, id, keys[..|keys| - 1], step, env);
      DestroyKeyReacts(m, id, keys[|keys| - 1], step, env);
      ReactsTrans(s, m, DestroyKey(m, id, keys[|keys| - 1], step, env), step);
    }
  }

  lemma DestroyedReacts(s: Scene, id: int, step: Step, env: Env)
    requires Sane(s)
    ensures Reacts(s, Destroyed(s, id, step, env), step)
  {
    if id in s.actors {
      var a := s.actors[id];
      var s1 := s.(actors := s.actors[id := a.(destroyed := true)], actorsToDestroy := s.actorsToDestroy + [id]);
      DestroyKeysReacts(s1, id, StringOrder.Sort(a.componentKeys), step, env);
      ReactsTrans(s, s1, Destroyed(s, id, step, env), step);
    }
  }

  /** Storing a new component under a fresh handle. */
  lemma StoreComponentGrows(s: Scene, id: int, k: string, comp: Component)
    requires Sane(s) && id in s.actors
    ensures var u := StoreComponent(s, id, k, comp);
      Sane(u) && Evolves(s, u, id) && u.trace == s.trace && u.idCtr == s.idCtr && id in u.actors
      && u.actorsToAdd == s.actorsToAdd && u.actorsToDestroy == s.actorsToDestroy && u.nextRef == s.nextRef + 1
  {
    var u := StoreComponent(s, id, k, comp);
    assert HeapKept(s, u);
    assert ActorsKept(s, u, id);
  }

  /** Replacing an actor by one that is destroyed when it was. */
  lemma ActorChangeGrows(s: Scene, id: int, a: Actor, bound: int)
    requires Sane(s) && id in s.actors && (s.actors[id].destroyed ==> a.destroyed)
    ensures var u := s.(actors := s.actors[id := a]);
      Sane(u) && Evolves(s, u, bound)
  {
    var u := s.(actors := s.actors[id := a]);
    assert ActorsKept(s, u, bound);
    assert HeapKept(s, u);
  }

  /** Registering the caches of an actor at or above `bound`. */
  lemma CachesAddGrows(s: Scene, ck: ComponentKey, ref: nat, comp: Component, bound: int)
    requires Sane(s) && bound <= ck.actorId
    ensures var u := s.(caches := AddToCaches(s.caches, ck, ref, comp));
      Sane(u) && Evolves(s, u, bound)
  {
    var u := s.(caches := AddToCaches(s.caches, ck, ref, comp));
    assert ActorsKept(s, u, bound);
    assert HeapKept(s, u);
    assert CacheKept(s.caches.onStart, u.caches.onStart, bound);
    assert CacheKept(s.caches.onUpdate, u.caches.onUpdate, bound);
    assert CacheKept(s.caches.onLateUpdate, u.caches.onLateUpdate, bound);
  }

  lemma InstantiateKeyGrow(s: Scene, id: int, t: Template, k: string)
    requires Sane(s) && id in s.actors
    ensures var u := InstantiateKey(s, id, t, k);
      Sane(u) && Evolves(s, u, id) && u.trace == s.trace && u.idCtr == s.idCtr && id in u.actors
      && u.actorsToAdd == s.actorsToAdd && u.actorsToDestroy == s.actorsToDestroy && u.actorIdVec == s.actorIdVec
  {
    if k in t.protos {
      var comp := Stamped(t.protos[k], s.frame);
      var s1 := StoreComponent(s, id, k, comp);
      StoreComponentGrows(s, id, k, comp);
      CachesAddGrows(s1, ComponentKey(id, k), s.nextRef, comp, id);
      EvolvesTrans(s, s1, s1.(caches := AddToCaches(s1.caches, ComponentKey(id, k), s.nextRef, comp)), id, id);
    }
  }

  /** Creating components for the new actor `id` touches nothing below it. */
  lemma {:induction false} InstantiateKeysGrow(s: Scene, id: int, t: Template, keys: seq<string>)
    requires Sane(s) && id in s.actors
    ensures var u := InstantiateKeys(s, id, t, keys);
      Sane(u) && Evolves(s, u, id) && u.trace == s.trace && u.idCtr == s.idCtr && id in u.actors
      && u.actorsToAdd == s.actorsToAdd && u.actorsToDestroy == s.actorsToDestroy && u.actorIdVec == s.actorIdVec
    decreases |keys|
  {
    if |keys| > 0 {
      var m := InstantiateKeys(s, id, t, keys[..|keys| - 1]);
      InstantiateKeysGrow(s, id, t, keys[..|keys| - 1]);
      InstantiateKeyGrow(m, id, t, keys[|keys| - 1]);
      EvolvesTrans(s, m, InstantiateKey(m, id, t, keys[|keys| - 1]), id, id);
    }
  }

  lemma ReservedGrows(s: Scene)
    requires Sane(s)
    ensures var u := Reserved(s);
      Sane(u) && Evolves(s, u, s.idCtr) && s.idCtr in u.actors && u.trace == s.trace
  {
    var u := Reserved(s);
    assert ActorsKept(s, u, s.idCtr);
    assert HeapKept(s, u);
  }

  lemma FromTemplateGrows(s: Scene, id: int, t: Template)
    requires Sane(s) && id in s.actors && !s.actors[id].destroyed
    ensures var u := FromTemplate(s, id, t);
      Sane(u) && Evolves(s, u, id) && u.trace == s.trace && id in u.actors
  {
    var a := Actor(t.name, id, false, false, map[], [], t.keys);
    ActorChangeGrows(s, id, a, id);
    InstantiateKeysGrow(s.(actors := s.actors[id := a]), id, t, t.keys);
    EvolvesTrans(s, s.(actors := s.actors[id := a]), FromTemplate(s, id, t), id, id);
  }

  lemma InstantiatedReacts(s: Scene, name: string, step: Step, env: Env)
    requires Sane(s)
    ensures Reacts(s, Instantiated(s, name, env).0, step)
  {
    var id := s.idCtr;
    ReservedGrows(s);
    if name in env.templates {
      var s1 := Reserved(s);
      var s2 := FromTemplate(s1, id, env.templates[name]);
      FromTemplateGrows(s1, id, env.templates[name]);
      EvolvesTrans(s, s1, s2, id, id);
      var s3 := s2.(actorsToAdd := s2.actorsToAdd + [id], onstartNew := true);
      assert Evolves(s2, s3, id) by {
        assert ActorsKept(s2, s3, id);
        assert HeapKept(s2, s3);
      }
      EvolvesTrans(s, s2, s3, id, id);
    }
  }

  /** A change a script may make keeps the invariant of `SceneDB`: fresh
      handles and ids, `OnStart` once, listed ids naming actors. */
  lemma ReactsValid(s: Scene, t: Scene, step: Step)
    requires Sane(s) && StartedOnce(s) && ListedExist(s)
    requires Reacts(s, t, step)
    ensures Sane(t) && StartedOnce(t) && ListedExist(t)
  {
    StartedOnceKept(s, t, step, OnDestroy);
    assert ListedExist(t) by {
      forall x | x in t.actorIdVec
        ensures x in t.actors
      {
        assert x in s.actors;
      }
    }
  }

  /** `DestroyActor` keeps the invariant of `SceneDB`. */
  lemma DestroyedValid(s: Scene, id: int, step: Step, env: Env)
    requires Sane(s) && StartedOnce(s) && ListedExist(s)
    ensures var t := Destroyed(s, id, step, env); Sane(t) && StartedOnce(t) && ListedExist(t)
  {
    DestroyedReacts(s, id, step, env);
    ReactsValid(s, Destroyed(s, id, step, env), step);
  }

  /** `InstantiateActor` keeps the invariant of `SceneDB`, with or without
      the template. */
  lemma InstantiatedValid(s: Scene, name: string, env: Env)
    requires Sane(s) && StartedOnce(s) && ListedExist(s)
    ensures var t := Instantiated(s, name, env).0; Sane(t) && StartedOnce(t) && ListedExist(t)
  {
    InstantiatedReacts(s, name, Outside, env);
    ReactsValid(s, Instantiated(s, name, env).0, Outside);
  }

  lemma ApplyActionReacts(s: Scene, a: Action, step: Step, env: Env)
    requires Sane(s)
    ensures Reacts(s, ApplyAction(s, a, step, env), step)
  {
    match a
    case DestroyActorAction(target) => DestroyedReacts(s, target, step, env);
    case InstantiateAction(name) => InstantiatedReacts(s, name, step, env);
  }

  lemma {:induction false} ApplyActionsReacts(s: Scene, actions: seq<Action>, step: Step, env: Env)
    requires Sane(s)
    ensures Reacts(s, ApplyActions(s, actions, step, env), step)
    decreases |actions|
  {
    if |actions| > 0 {
      var m := ApplyActions(s, actions[..|actions| - 1], step, env);
      ApplyActionsReacts(s, actions[..|actions| - 1], step, env);
      ApplyActionReacts(m, actions[|actions| - 1], step, env);
      ReactsTrans(s, m, ApplyAction(m, actions[|actions| - 1], step, env), step);
    }
  }

  /** A callback invocation adds its own event, then only what its actions
      add. */
  lemma InvokeReacts(s: Scene, cb: Callback, ck: ComponentKey, ref: nat, step: Step, env: Env)
    requires Sane(s)
    ensures var t := Invoke(s, cb, ck, ref, step, env);
      Sane(t) && Evolves(s, t, s.idCtr) && NewEvents(s, t, step, cb)
      && |t.trace| > |s.trace| && t.trace[|s.trace|] == Event(step, cb, ck, ref, env.script(|s.trace|, cb, ck).raises)
      && forall i :: |s.trace| < i < |t.trace| ==> IsDestroyCallback(t.trace[i].callback)
  {
    var r := env.script(|s.trace|, cb, ck);
    var s1 := s.(trace := s.trace + [Event(step, cb, ck, ref, r.raises)]);
    ApplyActionsReacts(s1, r.actions, step, env);
    var t := Invoke(s, cb, ck, ref, step, env);
    assert s1.trace <= t.trace;
    assert t.trace[|s.trace|] == s1.trace[|s.trace|];
    EvolvesTrans(s, s1, t, s.idCtr, s1.idCtr);
  }

  // ------------------------------------------------------------- passes

  /** What a pass running `cb` callbacks in `step` may do to a scene. */
  ghost predicate Runs(s: Scene, t: Scene, step: Step, cb: Callback)
  {
    Sane(t) && Evolves(s, t, s.idCtr) && NewEvents(s, t, step, cb)
  }

  lemma RunsTrans(a: Scene, b: Scene, c: Scene, step: Step, cb: Callback)
    requires Runs(a, b, step, cb) && Runs(b, c, step, cb)
    ensures Runs(a, c, step, cb)
  {
    EvolvesTrans(a, b, c, a.idCtr, b.idCtr);
    NewEventsTrans(a, b, c, step, cb);
  }

  lemma UpdateOneRuns(s: Scene, ck: ComponentKey, env: Env)
    requires Sane(s)
    ensures Runs(s, UpdateOne(s, ck, env), UpdateStep, OnUpdate)
  {
    if ck in s.caches.onUpdate && Live(s, ck) && s.caches.onUpdate[ck] in s.heap {
      InvokeReacts(s, OnUpdate, ck, s.caches.onUpdate[ck], UpdateStep, env);
    }
  }

  lemma {:induction false} UpdateKeysRuns(s: Scene, keys: seq<ComponentKey>, env: Env)
    requires Sane(s)
    ensures Runs(s, UpdateKeys(s, keys, env), UpdateStep, OnUpdate)
    decreases |keys|
  {
    if |keys| > 0 {
      var m := UpdateKeys(s, keys[..|keys| - 1], env);
      UpdateKeysRuns(s, keys[..|keys| - 1], env);
      UpdateOneRuns(m, keys[|keys| - 1], env);
      RunsTrans(s, m, UpdateOne(m, keys[|keys| - 1], env), UpdateStep, OnUpdate);
    }
  }

  lemma LateOneRuns(s: Scene, ck: ComponentKey, env: Env)
    requires Sane(s)
    ensures Runs(s, LateOne(s, ck, env), LateUpdateStep, OnLateUpdate)
  {
    if ck in s.caches.onLateUpdate && Live(s, ck) && s.caches.onLateUpdate[ck] in s.heap {
      InvokeReacts(s, OnLateUpdate, ck, s.caches.onLateUpdate[ck], LateUpdateStep, env);
    }
  }

  lemma {:induction false} LateKeysRuns(s: Scene, keys: seq<ComponentKey>, env: Env)
    requires Sane(s)
    ensures Runs(s, LateKeys(s, keys, env), LateUpdateStep, OnLateUpdate)
    decreases |keys|
  {
    if |keys| > 0 {
      var m := LateKeys(s, keys[..|keys| - 1], env);
      LateKeysRuns(s, keys[..|keys| - 1], env);
      LateOneRuns(m, keys[|keys| - 1], env);
      RunsTrans(s, m, LateOne(m, keys[|keys| - 1], env), LateUpdateStep, OnLateUpdate);
    }
  }

  lemma StartOneRuns(s: Scene, cache: map<ComponentKey, nat>, ck: ComponentKey, env: Env)
    requires Sane(s)
    ensures Runs(s, StartOne(s, cache, ck, env), StartStep, OnStart)
  {
    if ck in cache && Live(s, ck) && cache[ck] in s.heap {
      var ref := cache[ck];
      var c := s.heap[ref];
      if !(!c.enabled || c.onStart || JustAdded(s, c)) {
        var t := Invoke(s, OnStart, ck, ref, StartStep, env);
        InvokeReacts(s, OnStart, ck, ref, StartStep, env);
        var u := t.(heap := t.heap[ref := t.heap[ref].(onStart := true)]);
        assert Runs(t, u, StartStep, OnStart) by {
          assert HeapKept(t, u);
          assert ActorsKept(t, u, t.idCtr);
        }
        RunsTrans(s, t, u, StartStep, OnStart);
      }
    }
  }

  lemma {:induction false} StartKeysRuns(s: Scene, cache: map<ComponentKey, nat>, keys: seq<ComponentKey>, env: Env)
    requires Sane(s)
    ensures Runs(s, StartKeys(s, cache, keys, env), StartStep, OnStart)
    decreases |keys|
  {
    if |keys| > 0 {
      var m := StartKeys(s, cache, keys[..|keys| - 1], env);
      StartKeysRuns(s, cache, keys[..|keys| - 1], env);
      StartOneRuns(m, cache, keys[|keys| - 1], env);
      RunsTrans(s, m, StartOne(m, cache, keys[|keys| - 1], env), StartStep, OnStart);
    }
  }

  // ---------------------------------------------------- what a pass skips

  /** The update pass calls the component `c` (SceneDB.cpp:270-276). */
  predicate UpdateCalls(s: Scene, c: Component)
  {
    c.kind == ScriptTable && c.enabled && !JustAdded(s, c)
  }

  /** The late-update pass calls the component `c` (SceneDB.cpp:306-310). */
  predicate LateCalls(s: Scene, c: Component)
  {
    c.enabled && !JustAdded(s, c)
  }

  /** The start pass calls the component `c` (SceneDB.cpp:233-236). */
  predicate StartCalls(s: Scene, c: Component)
  {
    c.enabled && !c.onStart && !JustAdded(s, c)
  }

  /** Why the update pass does not call `ck`: no cache entry, a missing or
      destroyed actor, or a component that is userdata, disabled or added in
      this frame. */
  ghost predicate UpdateBlocked(s: Scene, ck: ComponentKey)
  {
    ck !in s.caches.onUpdate || !Live(s, ck)
    || (s.caches.onUpdate[ck] in s.heap && !UpdateCalls(s, s.heap[s.caches.onUpdate[ck]]))
  }

  ghost predicate LateBlocked(s: Scene, ck: ComponentKey)
  {
    ck !in s.caches.onLateUpdate || !Live(s, ck)
    || (s.caches.onLateUpdate[ck] in s.heap && !LateCalls(s, s.heap[s.caches.onLateUpdate[ck]]))
  }

  /** For the start pass the entries come from the moved-out `cache`. */
  ghost predicate StartBlocked(s: Scene, cache: map<ComponentKey, nat>, ck: ComponentKey)
  {
    ck !in cache || !Live(s, ck) || (cache[ck] in s.heap && !StartCalls(s, s.heap[cache[ck]]))
  }

  /** Being live only ever ends for an existing actor. */
  lemma LiveStays(s: Scene, t: Scene, ck: ComponentKey)
    requires Evolves(s, t, s.idCtr) && ck.actorId < s.idCtr && Live(t, ck)
    ensures Live(s, ck)
  {
  }

  lemma UpdateBlockedStays(s: Scene, t: Scene, ck: ComponentKey)
    requires Evolves(s, t, s.idCtr) && ck.actorId < s.idCtr && UpdateBlocked(s, ck)
    ensures UpdateBlocked(t, ck)
  {
    if ck in t.caches.onUpdate && Live(t, ck) {
      LiveStays(s, t, ck);
      assert t.caches.onUpdate[ck] == s.caches.onUpdate[ck];
    }
  }

  lemma LateBlockedStays(s: Scene, t: Scene, ck: ComponentKey)
    requires Evolves(s, t, s.idCtr) && ck.actorId < s.idCtr && LateBlocked(s, ck)
    ensures LateBlocked(t, ck)
  {
    if ck in t.caches.onLateUpdate && Live(t, ck) {
      LiveStays(s, t, ck);
      assert t.caches.onLateUpdate[ck] == s.caches.onLateUpdate[ck];
    }
  }

  lemma StartBlockedStays(s: Scene, t: Scene, cache: map<ComponentKey, nat>, ck: ComponentKey)
    requires Evolves(s, t, s.idCtr) && ck.actorId < s.idCtr && StartBlocked(s, cache, ck)
    ensures StartBlocked(t, cache, ck)
  {
    if ck in cache && Live(t, ck) {
      LiveStays(s, t, ck);
    }
  }

  /** No `cb` event about `ck` between `s` and `t`. */
  ghost predicate NotCalled(s: Scene, t: Scene, cb: Callback, ck: ComponentKey)
  {
    forall i :: |s.trace| <= i < |t.trace| ==> !(t.trace[i].callback == cb && t.trace[i].key == ck)
  }

  lemma NotCalledTrans(a: Scene, b: Scene, c: Scene, cb: Callback, ck: ComponentKey)
    requires a.trace <= b.trace <= c.trace && NotCalled(a, b, cb, ck) && NotCalled(b, c, cb, ck)
    ensures NotCalled(a, c, cb, ck)
  {
    forall i | |a.trace| <= i < |c.trace|
      ensures !(c.trace[i].callback == cb && c.trace[i].key == ck)
    {
      if i < |b.trace| {
        assert c.trace[i] == b.trace[i];
      }
    }
  }

  /** Invoking the callback of another entry adds no `cb` event about `ck`. */
  lemma InvokeOther(s: Scene, cb: Callback, k: ComponentKey, ref: nat, step: Step, env: Env, ck: ComponentKey)
    requires Sane(s) && k != ck && !IsDestroyCallback(cb)
    ensures NotCalled(s, Invoke(s, cb, k, ref, step, env), cb, ck)
  {
    InvokeReacts(s, cb, k, ref, step, env);
  }

  /** The update pass never calls an entry blocked when it starts: one whose
      actor is missing or destroyed, whose component is userdata, disabled or
      added in this frame, or that has no cache entry. */
  lemma {:induction false} UpdateSkips(s: Scene, keys: seq<ComponentKey>, env: Env, ck: ComponentKey)
    requires Sane(s) && ck.actorId < s.idCtr && UpdateBlocked(s, ck)
    ensures NotCalled(s, UpdateKeys(s, keys, env), OnUpdate, ck)
    decreases |keys|
  {
    if |keys| > 0 {
      var m := UpdateKeys(s, keys[..|keys| - 1], env);
      var k := keys[|keys| - 1];
      UpdateSkips(s, keys[..|keys| - 1], env, ck);
      UpdateKeysRuns(s, keys[..|keys| - 1], env);
      UpdateBlockedStays(s, m, ck);
      UpdateOneRuns(m, k, env);
      if k != ck && k in m.caches.onUpdate && Live(m, k) && m.caches.onUpdate[k] in m.heap {
        InvokeOther(m, OnUpdate, k, m.caches.onUpdate[k], UpdateStep, env, ck);
      }
      NotCalledTrans(s, m, UpdateOne(m, k, env), OnUpdate, ck);
    }
  }

  lemma {:induction false} LateSkips(s: Scene, keys: seq<ComponentKey>, env: Env, ck: ComponentKey)
    requires Sane(s) && ck.actorId < s.idCtr && LateBlocked(s, ck)
    ensures NotCalled(s, LateKeys(s, keys, env), OnLateUpdate, ck)
    decreases |keys|
  {
    if |keys| > 0 {
      var m := LateKeys(s, keys[..|keys| - 1], env);
      var k := keys[|keys| - 1];
      LateSkips(s, keys[..|keys| - 1], env, ck);
      LateKeysRuns(s, keys[..|keys| - 1], env);
      LateBlockedStays(s, m, ck);
      LateOneRuns(m, k, env);
      if k != ck && k in m.caches.onLateUpdate && Live(m, k) && m.caches.onLateUpdate[k] in m.heap {
        InvokeOther(m, OnLateUpdate, k, m.caches.onLateUpdate[k], LateUpdateStep, env, ck);
      }
      NotCalledTrans(s, m, LateOne(m, k, env), OnLateUpdate, ck);
    }
  }

  lemma {:induction false} StartSkips(s: Scene, cache: map<ComponentKey, nat>, keys: seq<ComponentKey>, env: Env, ck: ComponentKey)
    requires Sane(s) && ck.actorId < s.idCtr && StartBlocked(s, cache, ck)
    ensures NotCalled(s, StartKeys(s, cache, keys, env), OnStart, ck)
    decreases |keys|
  {
    if |keys| > 0 {
      var m := StartKeys(s, cache, keys[..|keys| - 1], env);
      var k := keys[|keys| - 1];
      StartSkips(s, cache, keys[..|keys| - 1], env, ck);
      StartKeysRuns(s, cache, keys[..|keys| - 1], env);
      StartBlockedStays(s, m, cache, ck);
      StartOneRuns(m, cache, k, env);
      if k != ck && k in cache && Live(m, k) && cache[k] in m.heap {
        var ref := cache[k];
        var t := Invoke(m, OnStart, k, ref, StartStep, env);
        InvokeOther(m, OnStart, k, ref, StartStep, env, ck);
        InvokeReacts(m, OnStart, k, ref, StartStep, env);
        if ref in t.heap {
          assert NotCalled(t, t.(heap := t.heap[ref := t.heap[ref].(onStart := true)]), OnStart, ck);
          NotCalledTrans(m, t, t.(heap := t.heap[ref := t.heap[ref].(onStart := true)]), OnStart, ck);
        }
      }
      NotCalledTrans(s, m, StartOne(m, cache, k, env), OnStart, ck);
    }
  }

  lemma {:induction false} UpdateKeysSplit(s: Scene, a: seq<ComponentKey>, b: seq<ComponentKey>, env: Env)
    ensures UpdateKeys(s, a + b, env) == UpdateKeys(UpdateKeys(s, a, env), b, env)
    decreases |b|
  {
    if |b| > 0 {
      assert (a + b)[..|a + b| - 1] == a + b[..|b| - 1];
      UpdateKeysSplit(s, a, b[..|b| - 1], env);
    } else {
      assert a + b == a;
    }
  }

  /** An update entry erased by an earlier callback of the same pass (its
      actor destroyed, say) is not called afterwards. */
  lemma ErasedNotUpdated(s: Scene, keys: seq<ComponentKey>, i: nat, env: Env, ck: ComponentKey)
    requires Sane(s) && i <= |keys| && ck.actorId < s.idCtr
    requires ck !in UpdateKeys(s, keys[..i], env).caches.onUpdate
    ensures NotCalled(UpdateKeys(s, keys[..i], env), UpdateKeys(s, keys, env), OnUpdate, ck)
  {
    var m := UpdateKeys(s, keys[..i], env);
    UpdateKeysRuns(s, keys[..i], env);
    assert keys == keys[..i] + keys[i..];
    UpdateKeysSplit(s, keys[..i], keys[i..], env);
    UpdateSkips(m, keys[i..], env, ck);
  }

  /** The late-update pass over a key snapshot also runs its parts one after
      the other. */
  lemma {:induction false} LateKeysSplit(s: Scene, a: seq<ComponentKey>, b: seq<ComponentKey>, env: Env)
    ensures LateKeys(s, a + b, env) == LateKeys(LateKeys(s, a, env), b, env)
    decreases |b|
  {
    if |b| > 0 {
      assert (a + b)[..|a + b| - 1] == a + b[..|b| - 1];
      LateKeysSplit(s, a, b[..|b| - 1], env);
    } else {
      assert a + b == a;
    }
  }

  /** A late-update entry erased by an earlier callback of the same pass is
      not called afterwards: each snapshot key is looked up again. */
  lemma ErasedNotLateUpdated(s: Scene, keys: seq<ComponentKey>, i: nat, env: Env, ck: ComponentKey)
    requires Sane(s) && i <= |keys| && ck.actorId < s.idCtr
    requires ck !in LateKeys(s, keys[..i], env).caches.onLateUpdate
    ensures NotCalled(LateKeys(s, keys[..i], env), LateKeys(s, keys, env), OnLateUpdate, ck)
  {
    var m := LateKeys(s, keys[..i], env);
    LateKeysRuns(s, keys[..i], env);
    assert keys == keys[..i] + keys[i..];
    LateKeysSplit(s, keys[..i], keys[i..], env);
    LateSkips(m, keys[i..], env, ck);
  }

  /** The start pass empties the cache before it runs, so an entry it skips
      because its component was added in this frame is dropped: it is not
      called and not queued again (the component keeps `on_start` false). */
  lemma SuppressedStartDropped(s: Scene, keys: seq<ComponentKey>, env: Env, ck: ComponentKey)
    requires Sane(s) && ck.actorId < s.idCtr && ck in s.caches.onStart
    requires s.caches.onStart[ck] in s.heap && JustAdded(s, s.heap[s.caches.onStart[ck]])
    ensures var t := ProcessStart(s, keys, env);
      NotCalled(s, t, OnStart, ck) && ck !in t.caches.onStart
  {
    var s0 := s.(caches := s.caches.(onStart := map[]));
    assert Sane(s0);
    StartSkips(s0, s.caches.onStart, keys, env, ck);
    StartKeysRuns(s0, s.caches.onStart, keys, env);
  }

  // ------------------------------------------------- OnStart runs once

  /** Every `OnStart` call in the trace is of a component now marked
      started, and no component's `OnStart` was called twice. */
  ghost predicate StartedOnce(s: Scene)
  {
    && (forall i :: 0 <= i < |s.trace| && s.trace[i].callback == OnStart ==>
          s.trace[i].ref in s.heap && s.heap[s.trace[i].ref].onStart)
    && (forall i, j :: 0 <= i < j < |s.trace| && s.trace[i].callback == OnStart && s.trace[j].callback == OnStart ==>
          s.trace[i].ref != s.trace[j].ref)
  }

  /** Whatever only evolves the scene without calling `OnStart` keeps it. */
  lemma StartedOnceKept(s: Scene, t: Scene, step: Step, cb: Callback)
    requires StartedOnce(s) && HeapKept(s, t) && s.trace <= t.trace && NewEvents(s, t, step, cb) && cb != OnStart
    ensures StartedOnce(t)
  {
    forall i | 0 <= i < |t.trace| && t.trace[i].callback == OnStart
      ensures i < |s.trace| && t.trace[i] == s.trace[i]
    {
      if i < |s.trace| {
        assert t.trace[i] == s.trace[i];
      }
    }
  }

  lemma StartOneOnce(s: Scene, cache: map<ComponentKey, nat>, ck: ComponentKey, env: Env)
    requires Sane(s) && StartedOnce(s)
    ensures StartedOnce(StartOne(s, cache, ck, env))
  {
    if ck in cache && Live(s, ck) && cache[ck] in s.heap {
      var ref := cache[ck];
      var c := s.heap[ref];
      if !(!c.enabled || c.onStart || JustAdded(s, c)) {
        var t := Invoke(s, OnStart, ck, ref, StartStep, env);
        InvokeReacts(s, OnStart, ck, ref, StartStep, env);
        var n := |s.trace|;
        assert t.trace[n].ref == ref && t.trace[n].callback == OnStart;
        forall i | 0 <= i < n && s.trace[i].callback == OnStart
          ensures s.trace[i].ref != ref
        {
        }
        var u := t.(heap := t.heap[ref := t.heap[ref].(onStart := true)]);
        forall i | 0 <= i < |u.trace| && u.trace[i].callback == OnStart
          ensures u.trace[i].ref in u.heap && u.heap[u.trace[i].ref].onStart
          ensures i < n || i == n
        {
          if i < n {
            assert u.trace[i] == s.trace[i];
          }
        }
        forall i, j | 0 <= i < j < |u.trace| && u.trace[i].callback == OnStart && u.trace[j].callback == OnStart
          ensures u.trace[i].ref != u.trace[j].ref
        {
          assert u.trace[i] == s.trace[i];
          if j < n {
            assert u.trace[j] == s.trace[j];
          }
        }
      }
    }
  }

  lemma {:induction false} StartKeysOnce(s: Scene, cache: map<ComponentKey, nat>, keys: seq<ComponentKey>, env: Env)
    requires Sane(s) && StartedOnce(s)
    ensures StartedOnce(StartKeys(s, cache, keys, env))
    decreases |keys|
  {
    if |keys| > 0 {
      var m := StartKeys(s, cache, keys[..|keys| - 1], env);
      StartKeysOnce(s, cache, keys[..|keys| - 1], env);
      StartKeysRuns(s, cache, keys[..|keys| - 1], env);
      StartOneOnce(m, cache, keys[|keys| - 1], env);
    }
  }

  // ------------------------------------------------------------ destroy

  /** The component `k` of actor `id` has no cache entry and, when it exists,
      is disabled. */
  ghost predicate Purged(s: Scene, id: int, k: string)
  {
    var ck := ComponentKey(id, k);
    && ck !in s.caches.onStart && ck !in s.caches.onUpdate && ck !in s.caches.onLateUpdate
    && (id in s.actors && k in s.actors[id].components && s.actors[id].components[k] in s.heap ==>
          !s.heap[s.actors[id].components[k]].enabled)
  }

  /** The events added between `s` and `t` are destroy callbacks of `step`
      about components of `id` whose keys are in `keys`. */
  ghost predicate DestroyEventsAbout(s: Scene, t: Scene, id: int, keys: seq<string>, step: Step)
  {
    forall i :: |s.trace| <= i < |t.trace| ==>
      t.trace[i].step == step && IsDestroyCallback(t.trace[i].callback)
      && t.trace[i].key.actorId == id && t.trace[i].key.key in keys
  }

  /** The events added between `s` and `t` are in ascending key order. */
  ghost predicate KeysAscending(s: Scene, t: Scene)
  {
    forall i, j :: |s.trace| <= i < j < |t.trace| ==> !StringOrder.Less(t.trace[j].key.key, t.trace[i].key.key)
  }

  lemma CallOnDestroyShape(s: Scene, ck: ComponentKey, ref: nat, c: Component, step: Step, env: Env)
    ensures var t := CallOnDestroy(s, ck, ref, c, step, env);
      && t == s.(trace := t.trace) && s.trace <= t.trace && |t.trace| <= |s.trace| + 1
      && (|t.trace| > |s.trace| ==>
            var e := t.trace[|s.trace|]; e.step == step && IsDestroyCallback(e.callback) && e.key == ck)
  {
  }

  lemma DestroyKeyEffect(s: Scene, id: int, k: string, step: Step, env: Env)
    ensures var t := DestroyKey(s, id, k, step, env);
      && t.actors == s.actors && t.actorsToDestroy == s.actorsToDestroy && t.heap.Keys == s.heap.Keys
      && s.trace <= t.trace && |t.trace| <= |s.trace| + 1
      && (|t.trace| > |s.trace| ==>
            var e := t.trace[|s.trace|]; e.step == step && IsDestroyCallback(e.callback) && e.key == ComponentKey(id, k))
      && (forall k' :: Purged(s, id, k') ==> Purged(t, id, k'))
      && (id in s.actors && k in s.actors[id].components ==> Purged(t, id, k))
  {
    if id in s.actors && k in s.actors[id].components {
      var ref := s.actors[id].components[k];
      var ck := ComponentKey(id, k);
      if ref in s.heap {
        var c := s.heap[ref];
        var s1 := CallOnDestroy(s, ck, ref, c, step, env);
        CallOnDestroyShape(s, ck, ref, c, step, env);
        var t := s1.(heap := s1.heap[ref := c.(enabled := false)], caches := RemoveFromCaches(s1.caches, ck));
        assert Purged(t, id, k);
        forall k' | Purged(s, id, k')
          ensures Purged(t, id, k')
        {
          assert Purged(s1, id, k');
        }
      }
    }
  }

  lemma {:induction false} DestroyKeysFrame(s: Scene, id: int, keys: seq<string>, step: Step, env: Env)
    requires id in s.actors
    ensures var t := DestroyKeys(s, id, keys, step, env);
      && t.actors == s.actors && t.actorsToDestroy == s.actorsToDestroy && t.heap.Keys == s.heap.Keys
      && s.trace <= t.trace
      && (forall k :: k in keys && k in s.actors[id].components ==> Purged(t, id, k))
    decreases |keys|
  {
    if |keys| > 0 {
      var init := keys[..|keys| - 1];
      var last := keys[|keys| - 1];
      var m := DestroyKeys(s, id, init, step, env);
      DestroyKeysFrame(s, id, init, step, env);
      DestroyKeyEffect(m, id, last, step, env);
      var t := DestroyKey(m, id, last, step, env);
      forall k | k in keys && k in s.actors[id].components
        ensures Purged(t, id, k)
      {
        if k != last {
          assert k in init;
        }
      }
    }
  }

  lemma {:induction false} DestroyKeysAbout(s: Scene, id: int, keys: seq<string>, step: Step, env: Env)
    requires id in s.actors
    ensures DestroyEventsAbout(s, DestroyKeys(s, id, keys, step, env), id, keys, step)
    decreases |keys|
  {
    if |keys| > 0 {
      var init := keys[..|keys| - 1];
      var last := keys[|keys| - 1];
      var m := DestroyKeys(s, id, init, step, env);
      DestroyKeysAbout(s, id, init, step, env);
      DestroyKeysFrame(s, id, init, step, env);
      DestroyKeyEffect(m, id, last, step, env);
      var t := DestroyKey(m, id, last, step, env);
      forall i | |s.trace| <= i < |t.trace|
        ensures t.trace[i].step == step && IsDestroyCallback(t.trace[i].callback)
        ensures t.trace[i].key.actorId == id && t.trace[i].key.key in keys
      {
        if i < |m.trace| {
          assert t.trace[i] == m.trace[i];
          assert t.trace[i].key.key in init;
        }
      }
    }
  }

  lemma {:induction false} DestroyKeysAscending(s: Scene, id: int, keys: seq<string>, step: Step, env: Env)
    requires id in s.actors && StringOrder.Sorted(keys)
    ensures KeysAscending(s, DestroyKeys(s, id, keys, step, env))
    decreases |keys|
  {
    if |keys| > 0 {
      var init := keys[..|keys| - 1];
      var last := keys[|keys| - 1];
      var m := DestroyKeys(s, id, init, step, env);
      DestroyKeysAscending(s, id, init, step, env);
      DestroyKeysAbout(s, id, init, step, env);
      DestroyKeysFrame(s, id, init, step, env);
      DestroyKeyEffect(m, id, last, step, env);
      var t := DestroyKey(m, id, last, step, env);
      forall i, j | |s.trace| <= i < j < |t.trace|
        ensures !StringOrder.Less(t.trace[j].key.key, t.trace[i].key.key)
      {
        assert t.trace[i] == m.trace[i];
        if j < |m.trace| {
          assert t.trace[j] == m.trace[j];
        } else {
          var x := t.trace[i].key.key;
          var p :| 0 <= p < |init| && init[p] == x;
          assert keys[p] == x;
        }
      }
    }
  }

  /** `DestroyActor`: the actor is flagged destroyed and queued, every one of
      its components leaves all three caches and is disabled, and the events
      added are destroy callbacks of its components in ascending key order. */
  lemma DestroyedEffect(s: Scene, id: int, step: Step, env: Env)
    requires id in s.actors
    ensures var a := s.actors[id]; var t := Destroyed(s, id, step, env);
      && t.actors == s.actors[id := a.(destroyed := true)]
      && t.actorsToDestroy == s.actorsToDestroy + [id]
      && t.heap.Keys == s.heap.Keys
      && (forall k :: k in a.componentKeys && k in a.components ==> Purged(t, id, k))
      && DestroyEventsAbout(s, t, id, StringOrder.Sort(a.componentKeys), step)
      && KeysAscending(s, t)
  {
    var a := s.actors[id];
    var keys := StringOrder.Sort(a.componentKeys);
    var s1 := s.(actors := s.actors[id := a.(destroyed := true)], actorsToDestroy := s.actorsToDestroy + [id]);
    DestroyKeysFrame(s1, id, keys, step, env);
    DestroyKeysAbout(s1, id, keys, step, env);
    DestroyKeysAscending(s1, id, keys, step, env);
    forall k | k in a.componentKeys && k in a.components
      ensures k in keys
    {
      assert k in multiset(a.componentKeys);
    }
  }

  // -------------------------------------------------- component removal

  lemma RemoveKeyFrame(s: Scene, id: int, k: string, env: Env)
    requires id in s.actors
    ensures var a := s.actors[id]; var t := RemoveKey(s, id, k, env);
      && t.actors == s.actors[id := a.(componentKeys := Without(a.componentKeys, k), components := a.components - {k})]
      && t == s.(trace := t.trace, actors := t.actors)
      && s.trace <= t.trace
  {
  }

  lemma RemoveKeyEvent(s: Scene, id: int, k: string, env: Env)
    requires id in s.actors
    ensures var t := RemoveKey(s, id, k, env);
      && |s.trace| <= |t.trace| <= |s.trace| + 1
      && (|t.trace| > |s.trace| ==>
            var e := t.trace[|s.trace|]; e.step == RemovalStep && IsDestroyCallback(e.callback) && e.key == ComponentKey(id, k))
  {
    var a := s.actors[id];
    if k in a.components && a.components[k] in s.heap {
      CallOnDestroyShape(s, ComponentKey(id, k), a.components[k], s.heap[a.components[k]], RemovalStep, env);
    }
  }

  /** The actor `b` is `a` without the components listed in `keys`. */
  ghost predicate WithoutKeys(a: Actor, b: Actor, keys: seq<string>)
  {
    && b.name == a.name && b.id == a.id && b.destroyed == a.destroyed && b.dontDestroy == a.dontDestroy
    && (forall k :: k in b.components <==> k in a.components && k !in keys)
    && (forall k :: k in b.components ==> b.components[k] == a.components[k])
    && (forall k :: k in b.componentKeys <==> k in a.componentKeys && k !in keys)
  }

  lemma {:induction false} RemoveKeysFrame(s: Scene, id: int, keys: seq<string>, env: Env)
    requires id in s.actors
    ensures var t := RemoveKeys(s, id, keys, env);
      && t == s.(trace := t.trace, actors := t.actors)
      && (forall x :: x in s.actors && x != id ==> t.actors[x] == s.actors[x])
      && WithoutKeys(s.actors[id], t.actors[id], keys)
      && t.actors[id].componentsToRemove == s.actors[id].componentsToRemove
      && s.trace <= t.trace
    decreases |keys|
  {
    if |keys| > 0 {
      var init := keys[..|keys| - 1];
      var last := keys[|keys| - 1];
      var m := RemoveKeys(s, id, init, env);
      RemoveKeysFrame(s, id, init, env);
      RemoveKeyFrame(m, id, last, env);
      assert forall k :: k in keys <==> k in init || k == last;
    }
  }

  lemma {:induction false} RemoveKeysAbout(s: Scene, id: int, keys: seq<string>, env: Env)
    requires id in s.actors
    ensures DestroyEventsAbout(s, RemoveKeys(s, id, keys, env), id, keys, RemovalStep)
    decreases |keys|
  {
    if |keys| > 0 {
      var init := keys[..|keys| - 1];
      var last := keys[|keys| - 1];
      var m := RemoveKeys(s, id, init, env);
      RemoveKeysAbout(s, id, init, env);
      RemoveKeyEvent(m, id, last, env);
      var t := RemoveKey(m, id, last, env);
      forall i | |s.trace| <= i < |t.trace|
        ensures t.trace[i].step == RemovalStep && IsDestroyCallback(t.trace[i].callback)
        ensures t.trace[i].key.actorId == id && t.trace[i].key.key in keys
      {
        if i < |m.trace| {
          assert t.trace[i] == m.trace[i];
          assert t.trace[i].key.key in init;
        }
      }
    }
  }

  lemma SortedSameElements(s: seq<string>)
    ensures forall k :: k in StringOrder.Sort(s) <==> k in s
  {
    forall k
      ensures k in StringOrder.Sort(s) <==> k in s
    {
      assert k in StringOrder.Sort(s) <==> k in multiset(StringOrder.Sort(s));
      assert k in s <==> k in multiset(s);
    }
  }

  /** One actor of `RemoveActorComponents`: the components in its removal
      list leave `components` and `component_keys`, the list is emptied, and
      the caches, the heap and the other actors are left as they were. */
  lemma RemoveForActorFrame(s: Scene, id: int, env: Env)
    requires id in s.actors
    ensures var a := s.actors[id]; var t := RemoveForActor(s, id, env);
      && t == s.(trace := t.trace, actors := t.actors)
      && t.actors.Keys == s.actors.Keys
      && (forall x :: x in s.actors && x != id ==> t.actors[x] == s.actors[x])
      && WithoutKeys(a, t.actors[id], a.componentsToRemove)
      && t.actors[id].componentsToRemove == []
      && s.trace <= t.trace
  {
    var a := s.actors[id];
    if |a.componentsToRemove| > 0 {
      var sorted := StringOrder.Sort(a.componentsToRemove);
      var s1 := s.(actors := s.actors[id := a.(componentsToRemove := sorted)]);
      RemoveKeysFrame(s1, id, sorted, env);
      SortedSameElements(a.componentsToRemove);
    }
  }

  /** The events of one actor's removals are destroy callbacks of keys in
      its removal list. */
  lemma RemoveForActorAbout(s: Scene, id: int, env: Env)
    requires id in s.actors
    ensures DestroyEventsAbout(s, RemoveForActor(s, id, env), id, s.actors[id].componentsToRemove, RemovalStep)
  {
    var a := s.actors[id];
    if |a.componentsToRemove| > 0 {
      var sorted := StringOrder.Sort(a.componentsToRemove);
      var s1 := s.(actors := s.actors[id := a.(componentsToRemove := sorted)]);
      RemoveKeysAbout(s1, id, sorted, env);
      SortedSameElements(a.componentsToRemove);
    }
  }

  // ---------------------------------------------------- rigidbody queue

  /** The rigidbody pass keeps only entries queued in this frame and still
      new, each once with `isNew` cleared; it calls `Rigidbody::Init` only
      for entries it erases, and only with an existing Rigidbody component. */
  lemma {:induction false} InitPassSpec(s: Scene, entries: seq<RigidbodyInit>)
    ensures var r := InitPass(s, entries);
      && |r.kept| <= |entries|
      && (forall i :: 0 <= i < |r.kept| ==>
            !r.kept[i].isNew && r.kept[i].frameAdded == s.frame && r.kept[i].(isNew := true) in entries)
      && (forall i :: 0 <= i < |r.events| ==>
            var e := r.events[i];
            e.step == RigidbodyStep && e.callback == RigidbodyInitCall && !e.raised
            && e.key.actorId in s.actors && e.key.key in s.actors[e.key.actorId].components
            && e.ref == s.actors[e.key.actorId].components[e.key.key]
            && e.ref in s.heap && s.heap[e.ref].kind == RigidbodyUserdata)
    decreases |entries|
  {
    if |entries| > 0 {
      InitPassSpec(s, entries[..|entries| - 1]);
      var r := InitPass(s, entries[..|entries| - 1]);
      forall x | x in entries[..|entries| - 1]
        ensures x in entries
      {
      }
    }
  }

  /** Every entry of a second rigidbody pass is erased: an entry is put off
      at most once, so the queue is empty two frames after the last
      instantiation. */
  lemma {:induction false} InitPassDefersOnce(s: Scene, t: Scene, entries: seq<RigidbodyInit>)
    ensures InitPass(t, InitPass(s, entries).kept).kept == []
  {
    InitPassSpec(s, entries);
    NotNewErased(t, InitPass(s, entries).kept);
  }

  lemma {:induction false} NotNewErased(s: Scene, entries: seq<RigidbodyInit>)
    requires forall i :: 0 <= i < |entries| ==> !entries[i].isNew
    ensures InitPass(s, entries).kept == []
    decreases |entries|
  {
    if |entries| > 0 {
      NotNewErased(s, entries[..|entries| - 1]);
    }
  }

  // ------------------------------------------------ pending destruction

  lemma {:induction false} FilterOutMembers(ids: seq<int>, gone: set<int>)
    ensures forall x :: x in FilterOut(ids, gone) <==> x in ids && x !in gone
    decreases |ids|
  {
    if |ids| > 0 {
      FilterOutMembers(ids[..|ids| - 1], gone);
      assert forall x :: x in ids <==> x in ids[..|ids| - 1] || x == ids[|ids| - 1];
    }
  }

  /** The compaction keeps the survivors in their order: it distributes over
      concatenation. */
  lemma {:induction false} FilterOutAppend(a: seq<int>, b: seq<int>, gone: set<int>)
    ensures FilterOut(a + b, gone) == FilterOut(a, gone) + FilterOut(b, gone)
    decreases |b|
  {
    if |b| == 0 {
      assert a + b == a;
    } else {
      assert (a + b)[..|a + b| - 1] == a + b[..|b| - 1];
      FilterOutAppend(a, b[..|b| - 1], gone);
    }
  }

  lemma {:induction false} FilterOutNone(ids: seq<int>, gone: set<int>)
    requires forall i :: 0 <= i < |ids| ==> ids[i] !in gone
    ensures FilterOut(ids, gone) == ids
    decreases |ids|
  {
    if |ids| > 0 {
      FilterOutNone(ids[..|ids| - 1], gone);
    }
  }

  /** `ActorsPendingDestruction`: the queued actors leave `actors` and
      `actor_id_vec`, every other actor and id stays (ids in their order),
      and the queue is emptied. */
  lemma PendingDestructionSpec(s: Scene)
    ensures var t := PendingDestruction(s); var gone := IdSet(s.actorsToDestroy);
      && t.actorsToDestroy == []
      && t.actors.Keys == s.actors.Keys - gone
      && (forall x :: x in t.actors ==> t.actors[x] == s.actors[x])
      && (forall x :: x in t.actorIdVec <==> x in s.actorIdVec && x !in gone)
      && t.actorIdVec == FilterOut(s.actorIdVec, gone)
      && t == s.(actors := t.actors, actorIdVec := t.actorIdVec, actorsToDestroy := [])
  {
    var gone := IdSet(s.actorsToDestroy);
    FilterOutMembers(s.actorIdVec, gone);
    if |s.actorsToDestroy| == 0 {
      FilterOutNone(s.actorIdVec, gone);
    }
  }

  // --------------------------------------------- appending new actors

  /** Instantiating an actor and destroying it in the same frame leaves it in
      `actors_to_add` after `ActorsPendingDestruction` has freed it, so the
      final loop of `UpdateScene` (SceneDB.cpp:211-213) reads a freed
      actor. */
  lemma FreedPendingActorRead(s: Scene, name: string, env: Env)
    requires Sane(s) && name in env.templates
    ensures var t1 := Instantiated(s, name, env).0;
      var t2 := PendingDestruction(Destroyed(t1, s.idCtr, UpdateStep, env));
      AppendPendingAsWritten(t2).None?
  {
    var id := s.idCtr;
    var t1 := Instantiated(s, name, env).0;
    ReservedGrows(s);
    FromTemplateGrows(Reserved(s), id, env.templates[name]);
    assert id in t1.actors && id in t1.actorsToAdd;
    var d := Destroyed(t1, id, UpdateStep, env);
    DestroyedEffect(t1, id, UpdateStep, env);
    assert id in d.actorsToAdd;
    assert id in IdSet(d.actorsToDestroy);
    var t2 := PendingDestruction(d);
    PendingDestructionSpec(d);
    assert id in t2.actorsToAdd && id !in t2.actors;
  }

  /** The corrected append adds exactly the pending actors that still
      exist, in order, after the listed ones. */
  lemma AppendPendingSpec(s: Scene)
    ensures var t := AppendPending(s);
      && t.actorsToAdd == []
      && t.actorIdVec == s.actorIdVec + ExistingIds(s, s.actorsToAdd)
      && (forall x :: x in t.actorIdVec <==> x in s.actorIdVec || (x in s.actorsToAdd && x in s.actors))
      && (AppendPendingAsWritten(s).Some? ==> AppendPendingAsWritten(s) == Some(t))
  {
    ExistingIdsMembers(s, s.actorsToAdd);
    if AppendPendingAsWritten(s).Some? {
      ExistingIdsAll(s, s.actorsToAdd);
    }
  }

  lemma {:induction false} ExistingIdsMembers(s: Scene, ids: seq<int>)
    ensures forall x :: x in ExistingIds(s, ids) <==> x in ids && x in s.actors
    decreases |ids|
  {
    if |ids| > 0 {
      ExistingIdsMembers(s, ids[..|ids| - 1]);
      assert forall x :: x in ids <==> x in ids[..|ids| - 1] || x == ids[|ids| - 1];
    }
  }

  lemma {:induction false} ExistingIdsAll(s: Scene, ids: seq<int>)
    requires forall i :: 0 <= i < |ids| ==> ids[i] in s.actors
    ensures ExistingIds(s, ids) == ids
    decreases |ids|
  {
    if |ids| > 0 {
      ExistingIdsAll(s, ids[..|ids| - 1]);
    }
  }

  // ------------------------------------------------------------ lookup

  /** An existing, not destroyed actor of that name. */
  ghost predicate LiveNamed(s: Scene, id: int, name: string)
  {
    id in s.actors && s.actors[id].name == name && !s.actors[id].destroyed
  }

  lemma {:induction false} FirstLiveSpec(s: Scene, ids: seq<int>, name: string)
    ensures FirstLive(s, ids, name).Some? ==>
      FirstLive(s, ids, name).value in ids && LiveNamed(s, FirstLive(s, ids, name).value, name)
    ensures FirstLive(s, ids, name).None? <==> forall x :: x in ids ==> !LiveNamed(s, x, name)
    decreases |ids|
  {
    if |ids| > 0 {
      FirstLiveSpec(s, ids[1..], name);
      assert forall x :: x in ids <==> x == ids[0] || x in ids[1..];
    }
  }

  /** `FindActor`'s first loop returns the earliest live match. */
  lemma {:induction false} FirstLiveIsFirst(s: Scene, ids: seq<int>, name: string, i: nat)
    requires i < |ids| && LiveNamed(s, ids[i], name)
    requires forall j :: 0 <= j < i ==> !LiveNamed(s, ids[j], name)
    ensures FirstLive(s, ids, name) == Some(ids[i])
    decreases i
  {
    if i > 0 {
      FirstLiveIsFirst(s, ids[1..], name, i - 1);
    }
  }

  lemma {:induction false} FirstNamedSpec(s: Scene, ids: seq<int>, name: string)
    ensures FirstNamed(s, ids, name).Some? ==>
      var x := FirstNamed(s, ids, name).value; x in ids && x in s.actors && s.actors[x].name == name
    ensures FirstNamed(s, ids, name).None? <==> forall x :: x in ids ==> !(x in s.actors && s.actors[x].name == name)
    decreases |ids|
  {
    if |ids| > 0 {
      FirstNamedSpec(s, ids[1..], name);
      assert forall x :: x in ids <==> x == ids[0] || x in ids[1..];
    }
  }

  lemma {:induction false} AllLiveAppend(s: Scene, a: seq<int>, b: seq<int>, name: string)
    ensures AllLive(s, a + b, name) == AllLive(s, a, name) + AllLive(s, b, name)
    decreases |b|
  {
    if |b| == 0 {
      assert a + b == a;
    } else {
      assert (a + b)[..|a + b| - 1] == a + b[..|b| - 1];
      AllLiveAppend(s, a, b[..|b| - 1], name);
    }
  }

  /** `FindAllActor`'s loop over one list collects exactly the live actors of
      that name, and the first of them is the one `FindActor`'s first loop
      returns. */
  lemma {:induction false} AllLiveSpec(s: Scene, ids: seq<int>, name: string)
    ensures forall x :: x in AllLive(s, ids, name) <==> x in ids && LiveNamed(s, x, name)
    ensures |AllLive(s, ids, name)| > 0 <==> FirstLive(s, ids, name).Some?
    ensures |AllLive(s, ids, name)| > 0 ==> AllLive(s, ids, name)[0] == FirstLive(s, ids, name).value
    decreases |ids|
  {
    if |ids| > 0 {
      AllLiveSpec(s, ids[1..], name);
      assert ids == [ids[0]] + ids[1..];
      AllLiveAppend(s, [ids[0]], ids[1..], name);
      assert AllLive(s, [ids[0]], name) == (if LiveNamed(s, ids[0], name) then [ids[0]] else []) by {
        assert [ids[0]][..0] == [];
      }
      assert forall x :: x in ids <==> x == ids[0] || x in ids[1..];
    }
  }

  /** `FindActor` returns an existing actor of that name: a live one from
      `actor_id_vec`, or any pending one; it finds one whenever
      `FindAllActor` finds any, and when `actor_id_vec` holds a live match it
      returns the first actor `FindAllActor` lists. */
  lemma FindSpec(s: Scene, name: string)
    ensures FindActor(s, name).Some? ==>
      var x := FindActor(s, name).value;
      x in s.actors && s.actors[x].name == name
      && ((x in s.actorIdVec && !s.actors[x].destroyed) || x in s.actorsToAdd)
    ensures FindActor(s, name).None? <==>
      (forall x :: x in s.actorIdVec ==> !LiveNamed(s, x, name))
      && (forall x :: x in s.actorsToAdd ==> !(x in s.actors && s.actors[x].name == name))
    ensures forall x :: x in FindAllActor(s, name) <==> (x in s.actorIdVec || x in s.actorsToAdd) && LiveNamed(s, x, name)
    ensures |FindAllActor(s, name)| > 0 ==> FindActor(s, name).Some?
    ensures FirstLive(s, s.actorIdVec, name).Some? ==> |FindAllActor(s, name)| > 0
    ensures FirstLive(s, s.actorIdVec, name).Some? ==> FindActor(s, name) == Some(FindAllActor(s, name)[0])
  {
    FirstLiveSpec(s, s.actorIdVec, name);
    FirstNamedSpec(s, s.actorsToAdd, name);
    AllLiveSpec(s, s.actorIdVec, name);
    AllLiveSpec(s, s.actorsToAdd, name);
    if |FindAllActor(s, name)| > 0 && FirstLive(s, s.actorIdVec, name).None? {
      assert FindAllActor(s, name) == AllLive(s, s.actorsToAdd, name);
      assert FindAllActor(s, name)[0] in AllLive(s, s.actorsToAdd, name);
    }
  }

  // ------------------------------------------------------ instantiation

  /** Component `k` of actor `id` is the template's entry stamped with the
      frame, stored in the heap and registered in the caches it belongs
      to. */
  ghost predicate Installed(u: Scene, id: int, t: Template, k: string)
  {
    && id in u.actors && k in u.actors[id].components && k in t.protos
    && var ref := u.actors[id].components[k];
       var comp := Stamped(t.protos[k], u.frame);
       var ck := ComponentKey(id, k);
       && ref in u.heap && u.heap[ref] == comp
       && (GoesToStart(comp) ==> ck in u.caches.onStart && u.caches.onStart[ck] == ref)
       && (GoesToUpdate(comp) ==> ck in u.caches.onUpdate && u.caches.onUpdate[ck] == ref)
       && (GoesToLateUpdate(comp) ==> ck in u.caches.onLateUpdate && u.caches.onLateUpdate[ck] == ref)
  }

  lemma InstantiateKeyInstalls(s: Scene, id: int, t: Template, k: string)
    requires Sane(s) && id in s.actors
    ensures var u := InstantiateKey(s, id, t, k); var a := s.actors[id];
      && id in u.actors && u.frame == s.frame
      && u.actors == s.actors[id := a.(components := u.actors[id].components)]
      && (forall x :: x in u.actors[id].components <==> x in a.components || (x == k && k in t.protos))
      && (k in t.protos ==> Installed(u, id, t, k))
      && (forall x :: x != k && Installed(s, id, t, x) ==> Installed(u, id, t, x))
  {
    if k in t.protos {
      var comp := Stamped(t.protos[k], s.frame);
      var s1 := StoreComponent(s, id, k, comp);
      var u := InstantiateKey(s, id, t, k);
      forall x | x != k && Installed(s, id, t, x)
        ensures Installed(u, id, t, x)
      {
        assert s.actors[id].components[x] in s.heap;
        assert ComponentKey(id, x) != ComponentKey(id, k);
      }
    }
  }

  /** Creating the components of a new actor: every template key with an
      entry becomes an installed component, nothing else about the actor or
      about any other actor changes. */
  lemma InstantiateKeysEffect(s: Scene, id: int, t: Template, keys: seq<string>)
    requires Sane(s) && id in s.actors
    ensures var u := InstantiateKeys(s, id, t, keys); var a := s.actors[id];
      && id in u.actors && u.frame == s.frame
      && u.actors == s.actors[id := a.(components := u.actors[id].components)]
      && (forall x :: x in u.actors[id].components <==> x in a.components || (x in keys && x in t.protos))
      && (forall x :: x in keys && x in t.protos ==> Installed(u, id, t, x))
  {
    InstantiateKeysActors(s, id, t, keys);
    InstantiateKeysInstall(s, id, t, keys);
  }

  /** Only the new actor's component map changes, by the template keys with
      an entry. */
  lemma {:induction false} InstantiateKeysActors(s: Scene, id: int, t: Template, keys: seq<string>)
    requires Sane(s) && id in s.actors
    ensures var u := InstantiateKeys(s, id, t, keys); var a := s.actors[id];
      && id in u.actors && u.frame == s.frame
      && u.actors == s.actors[id := a.(components := u.actors[id].components)]
      && (forall x :: x in u.actors[id].components <==> x in a.components || (x in keys && x in t.protos))
    decreases |keys|
  {
    if |keys| > 0 {
      var init := keys[..|keys| - 1];
      var last := keys[|keys| - 1];
      var m := InstantiateKeys(s, id, t, init);
      InstantiateKeysActors(s, id, t, init);
      InstantiateKeysGrow(s, id, t, init);
      InstantiateKeyInstalls(m, id, t, last);
      assert forall x :: x in keys <==> x in init || x == last;
    }
  }

  /** Every template key with an entry ends up installed. */
  lemma {:induction false} InstantiateKeysInstall(s: Scene, id: int, t: Template, keys: seq<string>)
    requires Sane(s) && id in s.actors
    ensures forall x :: x in keys && x in t.protos ==> Installed(InstantiateKeys(s, id, t, keys), id, t, x)
    decreases |keys|
  {
    if |keys| > 0 {
      var init := keys[..|keys| - 1];
      var last := keys[|keys| - 1];
      var m := InstantiateKeys(s, id, t, init);
      InstantiateKeysInstall(s, id, t, init);
      InstantiateKeysGrow(s, id, t, init);
      InstantiateKeyInstalls(m, id, t, last);
      assert forall x :: x in keys <==> x in init || x == last;
    }
  }

  /** Installation depends on the actors, the heap, the caches and the
      frame only. */
  lemma InstalledKept(s: Scene, u: Scene, id: int, t: Template, k: string)
    requires Installed(s, id, t, k)
    requires u.actors == s.actors && u.heap == s.heap && u.caches == s.caches && u.frame == s.frame
    ensures Installed(u, id, t, k)
  {
  }

  /** `InstantiateActor`: the fresh id names a new actor with the template's
      name and keys, every template key with an entry is an installed
      component that counts as added this frame, the actor waits in
      `actors_to_add`, and nothing else changes.  With no such template the
      id is spent, an empty actor is left behind and nothing is queued. */
  lemma InstantiatedEffect(s: Scene, name: string, env: Env)
    requires Sane(s)
    ensures var u := Instantiated(s, name, env).0; var r := Instantiated(s, name, env).1; var id := s.idCtr;
      && id !in s.actors && u.actors.Keys == s.actors.Keys + {id} && u.idCtr == s.idCtr + 1
      && (forall x :: x in s.actors ==> u.actors[x] == s.actors[x])
      && u.trace == s.trace && u.actorIdVec == s.actorIdVec && u.actorsToDestroy == s.actorsToDestroy
      && (name !in env.templates ==>
            r == None && u.actors[id] == Actor("", id, false, false, map[], [], []) && u.actorsToAdd == s.actorsToAdd)
      && (name in env.templates ==>
            var t := env.templates[name]; var b := u.actors[id];
            && r == Some(id) && u.actorsToAdd == s.actorsToAdd + [id] && u.onstartNew
            && b.name == t.name && b.componentKeys == t.keys && !b.destroyed && b.componentsToRemove == []
            && (forall k :: k in b.components <==> k in t.keys && k in t.protos)
            && (forall k :: k in t.keys && k in t.protos ==>
                  Installed(u, id, t, k)
                  && (t.protos[k].kind == ScriptTable ==> JustAdded(u, u.heap[b.components[k]]))))
  {
    var id := s.idCtr;
    ReservedGrows(s);
    if name in env.templates {
      var t := env.templates[name];
      var s1 := Reserved(s);
      var s2 := s1.(actors := s1.actors[id := Actor(t.name, id, false, false, map[], [], t.keys)]);
      assert Sane(s2);
      InstantiateKeysEffect(s2, id, t, t.keys);
      InstantiateKeysGrow(s2, id, t, t.keys);
      var s3 := InstantiateKeys(s2, id, t, t.keys);
      var u := s3.(actorsToAdd := s3.actorsToAdd + [id], onstartNew := true);
      assert u == Instantiated(s, name, env).0;
      forall k | k in t.keys && k in t.protos
        ensures Installed(u, id, t, k)
      {
        InstalledKept(s3, u, id, t, k);
      }
    }
  }

  // ------------------------------------------------------------- a frame

  /** Every listed id names an existing actor. */
  ghost predicate ListedExist(s: Scene)
  {
    forall x :: x in s.actorIdVec ==> x in s.actors
  }

  /** The position of a step in `UpdateScene`. */
  function Rank(step: Step): nat
  {
    match step
    case StartStep => 0
    case RigidbodyStep => 1
    case UpdateStep => 2
    case LateUpdateStep => 3
    case RemovalStep => 4
    case Outside => 5
  }

  /** The events added between `s` and `t` are in step order, none later than
      rank `r`. */
  ghost predicate PhasedUpTo(s: Scene, t: Scene, r: nat)
  {
    && s.trace <= t.trace
    && (forall i :: |s.trace| <= i < |t.trace| ==> Rank(t.trace[i].step) <= r)
    && (forall i, j :: |s.trace| <= i < j < |t.trace| ==> Rank(t.trace[i].step) <= Rank(t.trace[j].step))
  }

  /** Every event added between `s` and `t` belongs to `step`. */
  ghost predicate OfStep(s: Scene, t: Scene, step: Step)
  {
    s.trace <= t.trace && forall i :: |s.trace| <= i < |t.trace| ==> t.trace[i].step == step
  }

  lemma PhaseAppend(s: Scene, a: Scene, b: Scene, r: nat, step: Step)
    requires PhasedUpTo(s, a, r) && r <= Rank(step) && OfStep(a, b, step)
    ensures PhasedUpTo(s, b, Rank(step))
  {
    forall i, j | |s.trace| <= i < j < |b.trace|
      ensures Rank(b.trace[i].step) <= Rank(b.trace[j].step)
    {
      if i < |a.trace| {
        assert b.trace[i] == a.trace[i];
        if j < |a.trace| {
          assert b.trace[j] == a.trace[j];
        }
      }
    }
    forall i | |s.trace| <= i < |b.trace|
      ensures Rank(b.trace[i].step) <= Rank(step)
    {
      if i < |a.trace| {
        assert b.trace[i] == a.trace[i];
      }
    }
  }

  lemma RunsOfStep(s: Scene, t: Scene, step: Step, cb: Callback)
    requires Runs(s, t, step, cb)
    ensures OfStep(s, t, step)
  {
  }

  /** `RemoveActorComponents`: every actor in `order` has an empty removal
      list afterwards, the others are untouched, the caches and the heap are
      left as they were, and the events added are destroy callbacks of the
      removal step. */
  lemma {:induction false} RemoveComponentsEffect(s: Scene, order: seq<int>, env: Env)
    ensures var t := RemoveComponents(s, order, env);
      && t == s.(trace := t.trace, actors := t.actors)
      && t.actors.Keys == s.actors.Keys
      && (forall x :: x in s.actors && x in order ==> t.actors[x].componentsToRemove == [])
      && (forall x :: x in s.actors && x !in order ==> t.actors[x] == s.actors[x])
      && s.trace <= t.trace
      && NewEvents(s, t, RemovalStep, OnDestroy)
    decreases |order|
  {
    if |order| > 0 {
      var init := order[..|order| - 1];
      var last := order[|order| - 1];
      var m := RemoveComponents(s, init, env);
      RemoveComponentsEffect(s, init, env);
      if last in m.actors {
        RemoveForActorFrame(m, last, env);
        RemoveForActorAbout(m, last, env);
      }
      assert forall x :: x in order <==> x in init || x == last;
      var t := RemoveComponents(s, order, env);
      forall i | |s.trace| <= i < |t.trace|
        ensures t.trace[i].step == RemovalStep && (t.trace[i].callback == OnDestroy || IsDestroyCallback(t.trace[i].callback))
      {
        if i < |m.trace| {
          assert t.trace[i] == m.trace[i];
        }
      }
    }
  }

  /** One step of a frame before the cleanup: the handles stay fresh, the
      id list is unchanged, no actor disappears, every event added belongs
      to `step`, and `OnStart` stays once per component. */
  ghost predicate Advances(s: Scene, t: Scene, step: Step)
  {
    && Sane(t) && t.actorIdVec == s.actorIdVec
    && (forall x :: x in s.actors ==> x in t.actors)
    && OfStep(s, t, step)
    && (StartedOnce(s) ==> StartedOnce(t))
  }

  lemma RunsAdvance(s: Scene, t: Scene, step: Step, cb: Callback)
    requires Runs(s, t, step, cb) && cb != OnStart
    ensures Advances(s, t, step)
  {
    if StartedOnce(s) {
      StartedOnceKept(s, t, step, cb);
    }
  }

  lemma StartPhase(s: Scene, keys: seq<ComponentKey>, env: Env)
    requires Sane(s)
    ensures Advances(s, StartIfNew(s, keys, env), StartStep)
  {
    var s0 := s.(onstartNew := false);
    if s.onstartNew && |s0.caches.onStart| > 0 {
      var c := s0.(caches := s0.caches.(onStart := map[]));
      var t := StartKeys(c, s0.caches.onStart, keys, env);
      StartKeysRuns(c, s0.caches.onStart, keys, env);
      if StartedOnce(s) {
        assert StartedOnce(c);
        StartKeysOnce(c, s0.caches.onStart, keys, env);
      }
      assert t == StartIfNew(s, keys, env);
    }
  }

  lemma RigidbodyPhase(s: Scene)
    requires Sane(s)
    ensures Advances(s, ProcessRigidbodies(s), RigidbodyStep)
  {
    var t := ProcessRigidbodies(s);
    InitPassSpec(s, s.rigidbodiesToInit);
    assert HeapKept(s, t);
    if StartedOnce(s) {
      StartedOnceKept(s, t, RigidbodyStep, RigidbodyInitCall);
    }
  }

  lemma UpdatePhase(s: Scene, keys: seq<ComponentKey>, env: Env)
    requires Sane(s)
    ensures Advances(s, ProcessUpdate(s, keys, env), UpdateStep)
  {
    if |s.caches.onUpdate| > 0 {
      UpdateKeysRuns(s, keys, env);
      RunsAdvance(s, UpdateKeys(s, keys, env), UpdateStep, OnUpdate);
    }
  }

  lemma LatePhase(s: Scene, keys: seq<ComponentKey>, env: Env)
    requires Sane(s)
    ensures Advances(s, ProcessLateUpdate(s, keys, env), LateUpdateStep)
  {
    if |s.caches.onLateUpdate| > 0 {
      LateKeysRuns(s, keys, env);
      RunsAdvance(s, LateKeys(s, keys, env), LateUpdateStep, OnLateUpdate);
    }
  }

  lemma RemovalPhase(s: Scene, order: seq<int>, env: Env)
    requires Sane(s)
    ensures var t := RemoveComponents(s, order, env);
      && Sane(t) && t.actorIdVec == s.actorIdVec && t.actors.Keys == s.actors.Keys
      && t.actorsToAdd == s.actorsToAdd && t.actorsToDestroy == s.actorsToDestroy
      && OfStep(s, t, RemovalStep)
      && (StartedOnce(s) ==> StartedOnce(t))
  {
    var t := RemoveComponents(s, order, env);
    RemoveComponentsEffect(s, order, env);
    assert HeapKept(s, t);
    if StartedOnce(s) {
      StartedOnceKept(s, t, RemovalStep, OnDestroy);
    }
  }

  /** Destruction and the corrected append add no event and keep the
      handles fresh; afterwards nothing waits, and every listed id names an
      existing actor. */
  lemma FinishPhase(s: Scene)
    requires Sane(s)
    ensures var t := AppendPending(PendingDestruction(s));
      && Sane(t) && t.trace == s.trace && t.heap == s.heap
      && t.actorsToAdd == [] && t.actorsToDestroy == []
      && (ListedExist(s) ==> ListedExist(t))
  {
    var s6 := PendingDestruction(s);
    PendingDestructionSpec(s);
    var t := AppendPending(s6);
    AppendPendingSpec(s6);
    if ListedExist(s) {
      assert ListedExist(s6);
    }
  }

  lemma CleanupPhase(s: Scene, order: seq<int>, env: Env)
    requires Sane(s)
    ensures var t := Cleanup(s, order, env);
      && Sane(t) && OfStep(s, t, RemovalStep)
      && t.actorsToAdd == [] && t.actorsToDestroy == []
      && (ListedExist(s) ==> ListedExist(t))
      && (StartedOnce(s) ==> StartedOnce(t))
  {
    var s5 := RemoveComponents(s, order, env);
    RemovalPhase(s, order, env);
    FinishPhase(s5);
    assert ListedExist(s) ==> ListedExist(s5);
  }

  lemma AdvancesListed(s: Scene, t: Scene, step: Step)
    requires Advances(s, t, step) && ListedExist(s)
    ensures ListedExist(t)
  {
  }

  /** The start and rigidbody steps, in order. */
  lemma EarlyPhases(s: Scene, startKeys: seq<ComponentKey>, env: Env)
    requires Sane(s)
    ensures var s2 := ProcessRigidbodies(StartIfNew(s, startKeys, env));
      && Sane(s2) && PhasedUpTo(s, s2, Rank(RigidbodyStep))
      && (ListedExist(s) ==> ListedExist(s2))
      && (StartedOnce(s) ==> StartedOnce(s2))
  {
    var s1 := StartIfNew(s, startKeys, env);
    StartPhase(s, startKeys, env);
    var s2 := ProcessRigidbodies(s1);
    RigidbodyPhase(s1);
    assert PhasedUpTo(s, s, 0);
    PhaseAppend(s, s, s1, 0, StartStep);
    PhaseAppend(s, s1, s2, Rank(StartStep), RigidbodyStep);
    if ListedExist(s) {
      AdvancesListed(s, s1, StartStep);
      AdvancesListed(s1, s2, RigidbodyStep);
    }
  }

  /** The update and late-update steps, after steps up to the rigidbody one. */
  lemma CallbackPhases(s: Scene, s2: Scene, updateKeys: seq<ComponentKey>, lateKeys: seq<ComponentKey>, env: Env)
    requires Sane(s2) && PhasedUpTo(s, s2, Rank(RigidbodyStep))
    ensures var s4 := ProcessLateUpdate(ProcessUpdate(s2, updateKeys, env), lateKeys, env);
      && Sane(s4) && PhasedUpTo(s, s4, Rank(LateUpdateStep))
      && (ListedExist(s2) ==> ListedExist(s4))
      && (StartedOnce(s2) ==> StartedOnce(s4))
  {
    UpdateAppend(s, s2, updateKeys, env);
    LateAppend(s, ProcessUpdate(s2, updateKeys, env), lateKeys, env);
  }

  /** The update step after steps up to the rigidbody one. */
  lemma UpdateAppend(s: Scene, s2: Scene, keys: seq<ComponentKey>, env: Env)
    requires Sane(s2) && PhasedUpTo(s, s2, Rank(RigidbodyStep))
    ensures var s3 := ProcessUpdate(s2, keys, env);
      && Sane(s3) && PhasedUpTo(s, s3, Rank(UpdateStep))
      && (ListedExist(s2) ==> ListedExist(s3))
      && (StartedOnce(s2) ==> StartedOnce(s3))
  {
    UpdatePhase(s2, keys, env);
    AdvanceAppend(s, s2, ProcessUpdate(s2, keys, env), Rank(RigidbodyStep), UpdateStep);
  }

  /** The late-update step after steps up to the update one. */
  lemma LateAppend(s: Scene, s3: Scene, keys: seq<ComponentKey>, env: Env)
    requires Sane(s3) && PhasedUpTo(s, s3, Rank(UpdateStep))
    ensures var s4 := ProcessLateUpdate(s3, keys, env);
      && Sane(s4) && PhasedUpTo(s, s4, Rank(LateUpdateStep))
      && (ListedExist(s3) ==> ListedExist(s4))
      && (StartedOnce(s3) ==> StartedOnce(s4))
  {
    LatePhase(s3, keys, env);
    AdvanceAppend(s, s3, ProcessLateUpdate(s3, keys, env), Rank(UpdateStep), LateUpdateStep);
  }

  /** One more step that advances the scene extends the ordered events and
      keeps the invariants. */
  lemma AdvanceAppend(s: Scene, a: Scene, b: Scene, r: nat, step: Step)
    requires PhasedUpTo(s, a, r) && r <= Rank(step) && Advances(a, b, step)
    ensures Sane(b) && PhasedUpTo(s, b, Rank(step))
    ensures ListedExist(a) ==> ListedExist(b)
    ensures StartedOnce(a) ==> StartedOnce(b)
  {
    PhaseAppend(s, a, b, r, step);
    if ListedExist(a) {
      AdvancesListed(a, b, step);
    }
  }

  /** The steps of a frame before the cleanup, in order. */
  lemma FrontPhases(s: Scene, startKeys: seq<ComponentKey>, updateKeys: seq<ComponentKey>,
                    lateKeys: seq<ComponentKey>, env: Env)
    requires Sane(s)
    ensures var s4 := ProcessLateUpdate(ProcessUpdate(ProcessRigidbodies(StartIfNew(s, startKeys, env)), updateKeys, env), lateKeys, env);
      && Sane(s4) && PhasedUpTo(s, s4, Rank(LateUpdateStep))
      && (ListedExist(s) ==> ListedExist(s4))
      && (StartedOnce(s) ==> StartedOnce(s4))
  {
    EarlyPhases(s, startKeys, env);
    CallbackPhases(s, ProcessRigidbodies(StartIfNew(s, startKeys, env)), updateKeys, lateKeys, env);
  }

  /** `UpdateScene`: a frame's events come step by step in the order of
      `UpdateScene`; afterwards nothing waits to be added or destroyed, every
      listed id names an existing actor if that held before, the handles
      stay fresh and `OnStart` stays once per component. */
  lemma FrameSpec(s: Scene, startKeys: seq<ComponentKey>, updateKeys: seq<ComponentKey>,
                  lateKeys: seq<ComponentKey>, order: seq<int>, env: Env)
    requires Sane(s)
    ensures var t := Frame(s, startKeys, updateKeys, lateKeys, order, env);
      && Sane(t)
      && s.trace <= t.trace
      && (forall i, j :: |s.trace| <= i < j < |t.trace| ==> Rank(t.trace[i].step) <= Rank(t.trace[j].step))
      && t.actorsToAdd == [] && t.actorsToDestroy == []
      && (ListedExist(s) ==> ListedExist(t))
      && (StartedOnce(s) ==> StartedOnce(t))
  {
    var s4 := ProcessLateUpdate(ProcessUpdate(ProcessRigidbodies(StartIfNew(s, startKeys, env)), updateKeys, env), lateKeys, env);
    FrontPhases(s, startKeys, updateKeys, lateKeys, env);
    CleanupPhase(s4, order, env);
    PhaseAppend(s, s4, Cleanup(s4, order, env), Rank(LateUpdateStep), RemovalStep);
  }
}
