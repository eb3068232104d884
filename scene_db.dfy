/** `SceneDB` as an object (SceneDB.cpp): its maps, queues and caches are
    fields that its methods update in place, each method proved to take the
    scene snapshot `State()` to the value the scene model gives. */
module Scenes {
  import opened Wrappers
  import StringOrder
  import opened SceneModel
  import SceneLaws

  /** The keys of a map, each once, in an order the model leaves open (the
      iteration order of an unordered container). */
  method Enumerate<K(==), V>(m: map<K, V>) returns (keys: seq<K>)
    ensures forall k :: k in keys <==> k in m
    ensures forall i, j :: 0 <= i < j < |keys| ==> keys[i] != keys[j]
  {
    keys := [];
    var rest := m.Keys;
    while rest != {}
      invariant rest <= m.Keys
      invariant forall k :: k in m <==> k in keys || k in rest
      invariant forall k :: k in keys ==> k !in rest
      invariant forall i, j :: 0 <= i < j < |keys| ==> keys[i] != keys[j]
      decreases |rest|
    {
      var k :| k in rest;
      keys := keys + [k];
      rest := rest - {k};
    }
  }

  /** The read/write-index loop of `ActorsPendingDestruction` on the id
      vector: every id not in `gone` is moved down to the write index, then
      the vector is cut to the written length. */
  method Compact(v: seq<int>, gone: set<int>) returns (r: seq<int>)
    ensures r == FilterOut(v, gone)
  {
    r := v;
    var write := 0;
    var read := 0;
    while read < |r|
      invariant |r| == |v|
      invariant 0 <= write <= read <= |v|
      invariant r[..write] == FilterOut(v[..read], gone)
      invariant r[read..] == v[read..]
    {
      assert v[..read + 1][..read] == v[..read];
      assert r[read] == v[read];
      assert r[read + 1..] == v[read + 1..];
      if r[read] !in gone {
        ghost var before := r;
        r := r[write := r[read]];
        assert r[..write + 1] == before[..write] + [v[read]];
        assert r[read + 1..] == before[read + 1..];
        write := write + 1;
      }
      read := read + 1;
    }
    assert v[..read] == v;
    r := r[..write];
  }

  /** The body of the `rigidbodies_to_init` loop of `UpdateScene`, on the
      queue: an entry added this frame and still new is kept with `isNew`
      cleared and the index moves on; any other entry is erased in place,
      after `Rigidbody::Init` when its component is a live Rigidbody. */
  method InitQueue(s: Scene, entries: seq<RigidbodyInit>) returns (queue: seq<RigidbodyInit>, added: seq<Event>)
    ensures InitResult(queue, added) == InitPass(s, entries)
  {
    queue := entries;
    added := [];
    var i := 0;
    ghost var j := 0;
    while i < |queue|
      invariant 0 <= j <= |entries|
      invariant i <= |queue|
      invariant queue[..i] == InitPass(s, entries[..j]).kept
      invariant queue[i..] == entries[j..]
      invariant added == InitPass(s, entries[..j]).events
      decreases |queue| - i
    {
      ghost var r := InitPass(s, entries[..j]);
      var e := queue[i];
      assert e == entries[j];
      assert entries[..j + 1][..j] == entries[..j];
      if e.isNew && e.frameAdded == s.frame {
        queue := queue[i := e.(isNew := false)];
        assert queue[..i + 1] == r.kept + [e.(isNew := false)];
        assert queue[i + 1..] == entries[j + 1..];
        i := i + 1;
      } else {
        if e.actorId in s.actors && e.componentKey in s.actors[e.actorId].components {
          var ref := s.actors[e.actorId].components[e.componentKey];
          if ref in s.heap && s.heap[ref].kind == RigidbodyUserdata {
            added := added + [Event(RigidbodyStep, RigidbodyInitCall, ComponentKey(e.actorId, e.componentKey), ref, false)];
          }
        }
        ghost var before := queue;
        queue := queue[..i] + queue[i + 1..];
        assert queue[..i] == before[..i];
        assert queue[i..] == before[i + 1..];
      }
      j := j + 1;
    }
    assert entries[..j] == entries;
    assert queue[..i] == queue;
  }

  lemma DestroyKeysNext(s: Scene, id: int, keys: seq<string>, i: nat, step: Step, env: Env)
    requires i < |keys|
    ensures DestroyKeys(s, id, keys[..i + 1], step, env) == DestroyKey(DestroyKeys(s, id, keys[..i], step, env), id, keys[i], step, env)
  {
    assert keys[..i + 1][..i] == keys[..i];
  }

  lemma InstantiateKeysNext(s: Scene, id: int, t: Template, keys: seq<string>, i: nat)
    requires i < |keys|
    ensures InstantiateKeys(s, id, t, keys[..i + 1]) == InstantiateKey(InstantiateKeys(s, id, t, keys[..i]), id, t, keys[i])
  {
    assert keys[..i + 1][..i] == keys[..i];
  }

  lemma ApplyActionsNext(s: Scene, actions: seq<Action>, i: nat, step: Step, env: Env)
    requires i < |actions|
    ensures ApplyActions(s, actions[..i + 1], step, env) == ApplyAction(ApplyActions(s, actions[..i], step, env), actions[i], step, env)
  {
    assert actions[..i + 1][..i] == actions[..i];
  }

  lemma StartKeysNext(s: Scene, cache: map<ComponentKey, nat>, keys: seq<ComponentKey>, i: nat, env: Env)
    requires i < |keys|
    ensures StartKeys(s, cache, keys[..i + 1], env) == StartOne(StartKeys(s, cache, keys[..i], env), cache, keys[i], env)
  {
    assert keys[..i + 1][..i] == keys[..i];
  }

  lemma UpdateKeysNext(s: Scene, keys: seq<ComponentKey>, i: nat, env: Env)
    requires i < |keys|
    ensures UpdateKeys(s, keys[..i + 1], env) == UpdateOne(UpdateKeys(s, keys[..i], env), keys[i], env)
  {
    assert keys[..i + 1][..i] == keys[..i];
  }

  lemma LateKeysNext(s: Scene, keys: seq<ComponentKey>, i: nat, env: Env)
    requires i < |keys|
    ensures LateKeys(s, keys[..i + 1], env) == LateOne(LateKeys(s, keys[..i], env), keys[i], env)
  {
    assert keys[..i + 1][..i] == keys[..i];
  }

  lemma RemoveComponentsNext(s: Scene, order: seq<int>, i: nat, env: Env)
    requires i < |order|
    ensures RemoveComponents(s, order[..i + 1], env) == RemoveForActor(RemoveComponents(s, order[..i], env), order[i], env)
  {
    assert order[..i + 1][..i] == order[..i];
  }

  lemma RemoveKeysNext(s: Scene, id: int, keys: seq<string>, i: nat, env: Env)
    requires i < |keys|
    ensures RemoveKeys(s, id, keys[..i + 1], env) == RemoveKey(RemoveKeys(s, id, keys[..i], env), id, keys[i], env)
  {
    assert keys[..i + 1][..i] == keys[..i];
  }

  class SceneDB {
    var actors: map<int, Actor>
    var actorIdVec: seq<int>
    var actorsToAdd: seq<int>
    var actorsToDestroy: seq<int>
    var idCtr: int
    var onStartCache: map<ComponentKey, nat>
    var onUpdateCache: map<ComponentKey, nat>
    var onLateUpdateCache: map<ComponentKey, nat>
    var rigidbodiesToInit: seq<RigidbodyInit>
    /** The component objects behind the shared handles. */
    var heap: map<nat, Component>
    var nextRef: nat
    var onstartNew: bool
    /** `Helper::GetFrameNumber()`. */
    var currentFrame: int
    /** The callbacks made so far. */
    var trace: seq<Event>

    function State(): Scene
      reads this
    {
      Scene(actors, actorIdVec, actorsToAdd, actorsToDestroy, idCtr,
            Caches(onStartCache, onUpdateCache, onLateUpdateCache),
            rigidbodiesToInit, heap, nextRef, onstartNew, currentFrame, trace)
    }

    /** Fresh handles and ids, `OnStart` at most once per component, and
        every listed id naming an existing actor. */
    ghost predicate Valid()
      reads this
    {
      SceneLaws.Sane(State()) && SceneLaws.StartedOnce(State()) && SceneLaws.ListedExist(State())
    }

    /** An empty scene at frame `frame`. */
    constructor (frame: int)
      ensures State() == Scene(map[], [], [], [], 0, Caches(map[], map[], map[]), [], map[], 0, false, frame, [])
      ensures Valid()
    {
      actors, actorIdVec, actorsToAdd, actorsToDestroy := map[], [], [], [];
      idCtr := 0;
      onStartCache, onUpdateCache, onLateUpdateCache := map[], map[], map[];
      rigidbodiesToInit, heap, nextRef := [], map[], 0;
      onstartNew, currentFrame, trace := false, frame, [];
    }

    // ------------------------------------------------------------ caches

    /** `SceneDB::addComponentToCaches`. */
    method AddComponentToCaches(ck: ComponentKey, ref: nat, c: Component)
      modifies this
      ensures State() == old(State()).(caches := AddToCaches(old(State()).caches, ck, ref, c))
    {
      if c.kind != ScriptTable {
        if c.kind == RigidbodyUserdata {
          onUpdateCache := onUpdateCache[ck := ref];
          onLateUpdateCache := onLateUpdateCache[ck := ref];
        }
        return;
      }
      if !c.enabled {
        return;
      }
      if c.hasOnStart && !c.onStart {
        onStartCache := onStartCache[ck := ref];
      }
      if c.hasOnUpdate {
        onUpdateCache := onUpdateCache[ck := ref];
      }
      if c.hasOnLateUpdate {
        onLateUpdateCache := onLateUpdateCache[ck := ref];
      }
    }

    /** `SceneDB::removeComponentFromCaches`. */
    method RemoveComponentFromCaches(ck: ComponentKey)
      modifies this
      ensures State() == old(State()).(caches := RemoveFromCaches(old(State()).caches, ck))
    {
      onStartCache := onStartCache - {ck};
      onUpdateCache := onUpdateCache - {ck};
      onLateUpdateCache := onLateUpdateCache - {ck};
    }

    // ----------------------------------------------------------- destroy

    /** The destroy callback of one component. */
    method CallOnDestroy(ck: ComponentKey, ref: nat, c: Component, step: Step, env: Env)
      modifies this
      ensures State() == SceneModel.CallOnDestroy(old(State()), ck, ref, c, step, env)
    {
      if c.hasOnDestroy {
        trace := trace + [Event(step, OnDestroy, ck, ref, env.script(|trace|, OnDestroy, ck).raises)];
      } else if c.kind == RigidbodyUserdata {
        trace := trace + [Event(step, RigidbodyOnDestroy, ck, ref, false)];
      }
    }

    /** One iteration of the key loop of `DestroyActor`. */
    method DestroyComponent(id: int, k: string, step: Step, env: Env)
      modifies this
      ensures State() == DestroyKey(old(State()), id, k, step, env)
    {
      if id !in actors || k !in actors[id].components {
        return;
      }
      var ref := actors[id].components[k];
      var ck := ComponentKey(id, k);
      if ref in heap {
        var c := heap[ref];
        CallOnDestroy(ck, ref, c, step, env);
        heap := heap[ref := c.(enabled := false)];
      }
      RemoveComponentFromCaches(ck);
    }

    /** The key loop of `SceneDB::DestroyActor`. */
    method DestroyComponents(id: int, keys: seq<string>, step: Step, env: Env)
      modifies this
      ensures State() == DestroyKeys(old(State()), id, keys, step, env)
    {
      ghost var s1 := State();
      var i := 0;
      while i < |keys|
        invariant 0 <= i <= |keys|
        invariant State() == DestroyKeys(s1, id, keys[..i], step, env)
      {
        DestroyKeysNext(s1, id, keys, i, step, env);
        DestroyComponent(id, keys[i], step, env);
        i := i + 1;
      }
      assert keys[..|keys|] == keys;
    }

    /** `SceneDB::DestroyActor`. */
    method DestroyActor(id: int, step: Step, env: Env)
      modifies this
      ensures State() == Destroyed(old(State()), id, step, env)
      ensures old(Valid()) ==> Valid()
    {
      ghost var s0 := State();
      if Valid() {
        SceneLaws.DestroyedValid(s0, id, step, env);
      }
      if id !in actors {
        return;
      }
      var a := actors[id];
      actors := actors[id := a.(destroyed := true)];
      actorsToDestroy := actorsToDestroy + [id];
      DestroyComponents(id, StringOrder.Sort(a.componentKeys), step, env);
    }

    // ------------------------------------------------------- instantiate

    /** One component of a new actor. */
    method InstantiateComponent(id: int, t: Template, k: string)
      modifies this
      ensures State() == InstantiateKey(old(State()), id, t, k)
    {
      if id !in actors || k !in t.protos {
        return;
      }
      ghost var s0 := State();
      var comp := Stamped(t.protos[k], currentFrame);
      var ref := nextRef;
      heap := heap[ref := comp];
      nextRef := ref + 1;
      actors := actors[id := actors[id].(components := actors[id].components[k := ref])];
      if comp.kind == RigidbodyUserdata {
        rigidbodiesToInit := rigidbodiesToInit + [RigidbodyInit(id, k, true, currentFrame)];
      }
      assert State() == StoreComponent(s0, id, k, comp);
      AddComponentToCaches(ComponentKey(id, k), ref, comp);
    }

    /** The actor `id` filled from a template: name, keys, then one
        component per key. */
    method FillFromTemplate(id: int, t: Template)
      modifies this
      ensures State() == FromTemplate(old(State()), id, t)
    {
      actors := actors[id := Actor(t.name, id, false, false, map[], [], t.keys)];
      ghost var s1 := State();
      var i := 0;
      while i < |t.keys|
        invariant 0 <= i <= |t.keys|
        invariant State() == InstantiateKeys(s1, id, t, t.keys[..i])
      {
        InstantiateKeysNext(s1, id, t, t.keys, i);
        InstantiateComponent(id, t, t.keys[i]);
        i := i + 1;
      }
      assert t.keys[..|t.keys|] == t.keys;
    }

    /** `SceneDB::InstantiateActor`; `None` where the source throws for a
        missing template. */
    method InstantiateActor(name: string, env: Env) returns (r: Option<int>)
      modifies this
      ensures (State(), r) == Instantiated(old(State()), name, env)
      ensures old(Valid()) ==> Valid()
    {
      ghost var s0 := State();
      var id := idCtr;
      idCtr := idCtr + 1;
      actors := actors[id := Actor("", id, false, false, map[], [], [])];
      assert State() == Reserved(s0);
      if name !in env.templates {
        r := None;
      } else {
        FillFromTemplate(id, env.templates[name]);
        assert State() == FromTemplate(Reserved(s0), id, env.templates[name]);
        actorsToAdd := actorsToAdd + [id];
        onstartNew := true;
        r := Some(id);
      }
      assert (State(), r) == Instantiated(s0, name, env);
      if old(Valid()) {
        SceneLaws.InstantiatedValid(s0, name, env);
        ghost var t := Instantiated(s0, name, env).0;
        assert State() == t;
        assert SceneLaws.Sane(t) && SceneLaws.StartedOnce(t) && SceneLaws.ListedExist(t);
      }
    }

    // --------------------------------------------------------- callbacks

    /** A script action. */
    method React(a: Action, step: Step, env: Env)
      modifies this
      ensures State() == ApplyAction(old(State()), a, step, env)
    {
      match a
      case DestroyActorAction(target) =>
        DestroyActor(target, step, env);
      case InstantiateAction(name) =>
        var _ := InstantiateActor(name, env);
    }

    /** A callback's actions, in order. */
    method ReactAll(actions: seq<Action>, step: Step, env: Env)
      modifies this
      ensures State() == ApplyActions(old(State()), actions, step, env)
    {
      ghost var s1 := State();
      var i := 0;
      while i < |actions|
        invariant 0 <= i <= |actions|
        invariant State() == ApplyActions(s1, actions[..i], step, env)
      {
        ApplyActionsNext(s1, actions, i, step, env);
        React(actions[i], step, env);
        i := i + 1;
      }
      assert actions[..|actions|] == actions;
    }

    /** A Lua callback: recorded, then its actions in order. */
    method RunCallback(cb: Callback, ck: ComponentKey, ref: nat, step: Step, env: Env)
      modifies this
      ensures State() == Invoke(old(State()), cb, ck, ref, step, env)
    {
      var r := env.script(|trace|, cb, ck);
      trace := trace + [Event(step, cb, ck, ref, r.raises)];
      ReactAll(r.actions, step, env);
    }

    // ------------------------------------------------------------ passes

    /** One entry of `ProcessSceneOnStart`. */
    method StartComponent(cache: map<ComponentKey, nat>, ck: ComponentKey, env: Env)
      modifies this
      ensures State() == StartOne(old(State()), cache, ck, env)
    {
      if ck !in cache || ck.actorId !in actors || actors[ck.actorId].destroyed || cache[ck] !in heap {
        return;
      }
      var ref := cache[ck];
      var c := heap[ref];
      if !c.enabled || c.onStart || (c.frameAdded == currentFrame && c.newAddition) {
        return;
      }
      RunCallback(OnStart, ck, ref, StartStep, env);
      if ref in heap {
        heap := heap[ref := heap[ref].(onStart := true)];
      }
    }

    /** `SceneDB::ProcessSceneOnStart`; `keys` is the order the moved-out
        cache was walked in. */
    method ProcessSceneOnStart(env: Env) returns (keys: seq<ComponentKey>)
      modifies this
      ensures forall ck :: ck in keys <==> ck in old(onStartCache)
      ensures State() == ProcessStart(old(State()), keys, env)
    {
      if |onStartCache| == 0 {
        return [];
      }
      var cache := onStartCache;
      onStartCache := map[];
      keys := Enumerate(cache);
      ghost var s1 := State();
      var i := 0;
      while i < |keys|
        invariant 0 <= i <= |keys|
        invariant State() == StartKeys(s1, cache, keys[..i], env)
      {
        StartKeysNext(s1, cache, keys, i, env);
        StartComponent(cache, keys[i], env);
        i := i + 1;
      }
      assert keys[..|keys|] == keys;
    }

    /** One key of `ProcessSceneUpdate`. */
    method UpdateComponent(ck: ComponentKey, env: Env)
      modifies this
      ensures State() == UpdateOne(old(State()), ck, env)
    {
      if ck !in onUpdateCache || ck.actorId !in actors || actors[ck.actorId].destroyed || onUpdateCache[ck] !in heap {
        return;
      }
      var ref := onUpdateCache[ck];
      var c := heap[ref];
      if c.kind != ScriptTable || !c.enabled || (c.frameAdded == currentFrame && c.newAddition) {
        return;
      }
      RunCallback(OnUpdate, ck, ref, UpdateStep, env);
    }

    /** `SceneDB::ProcessSceneUpdate`; `keys` is the collected key list. */
    method ProcessSceneUpdate(env: Env) returns (keys: seq<ComponentKey>)
      modifies this
      ensures forall ck :: ck in keys <==> ck in old(onUpdateCache)
      ensures State() == ProcessUpdate(old(State()), keys, env)
    {
      if |onUpdateCache| == 0 {
        return [];
      }
      keys := Enumerate(onUpdateCache);
      ghost var s1 := State();
      var i := 0;
      while i < |keys|
        invariant 0 <= i <= |keys|
        invariant State() == UpdateKeys(s1, keys[..i], env)
      {
        UpdateKeysNext(s1, keys, i, env);
        UpdateComponent(keys[i], env);
        i := i + 1;
      }
      assert keys[..|keys|] == keys;
    }

    /** One key of `ProcessSceneLateUpdate`. */
    method LateUpdateComponent(ck: ComponentKey, env: Env)
      modifies this
      ensures State() == LateOne(old(State()), ck, env)
    {
      if ck !in onLateUpdateCache || ck.actorId !in actors || actors[ck.actorId].destroyed
         || onLateUpdateCache[ck] !in heap {
        return;
      }
      var ref := onLateUpdateCache[ck];
      var c := heap[ref];
      if !c.enabled || (c.frameAdded == currentFrame && c.newAddition) {
        return;
      }
      RunCallback(OnLateUpdate, ck, ref, LateUpdateStep, env);
    }

    /** `SceneDB::ProcessSceneLateUpdate`; `keys` is the collected key list. */
    method ProcessSceneLateUpdate(env: Env) returns (keys: seq<ComponentKey>)
      modifies this
      ensures forall ck :: ck in keys <==> ck in old(onLateUpdateCache)
      ensures State() == ProcessLateUpdate(old(State()), keys, env)
    {
      if |onLateUpdateCache| == 0 {
        return [];
      }
      keys := Enumerate(onLateUpdateCache);
      ghost var s1 := State();
      var i := 0;
      while i < |keys|
        invariant 0 <= i <= |keys|
        invariant State() == LateKeys(s1, keys[..i], env)
      {
        LateKeysNext(s1, keys, i, env);
        LateUpdateComponent(keys[i], env);
        i := i + 1;
      }
      assert keys[..|keys|] == keys;
    }

    /** The `rigidbodies_to_init` loop of `UpdateScene`. */
    method InitRigidbodies()
      modifies this
      ensures State() == ProcessRigidbodies(old(State()))
    {
      var queue, added := InitQueue(State(), rigidbodiesToInit);
      rigidbodiesToInit := queue;
      trace := trace + added;
    }

    // ----------------------------------------------------------- removal

    /** One key of an actor's removal list. */
    method RemoveComponent(id: int, k: string, env: Env)
      modifies this
      ensures State() == RemoveKey(old(State()), id, k, env)
    {
      if id !in actors {
        return;
      }
      var a := actors[id];
      if k in a.components && a.components[k] in heap {
        CallOnDestroy(ComponentKey(id, k), a.components[k], heap[a.components[k]], RemovalStep, env);
      }
      actors := actors[id := a.(componentKeys := Without(a.componentKeys, k), components := a.components - {k})];
    }

    /** The key loop of `RemoveActorComponents` for one actor. */
    method RemoveComponentKeys(id: int, keys: seq<string>, env: Env)
      modifies this
      ensures State() == RemoveKeys(old(State()), id, keys, env)
    {
      ghost var s1 := State();
      var i := 0;
      while i < |keys|
        invariant 0 <= i <= |keys|
        invariant State() == RemoveKeys(s1, id, keys[..i], env)
      {
        RemoveKeysNext(s1, id, keys, i, env);
        RemoveComponent(id, keys[i], env);
        i := i + 1;
      }
      assert keys[..|keys|] == keys;
    }

    /** One actor of `RemoveActorComponents`: its removal list sorted, each
        key removed, the list cleared. */
    method RemoveComponentsOf(id: int, env: Env)
      modifies this
      ensures State() == RemoveForActor(old(State()), id, env)
    {
      if id !in actors || |actors[id].componentsToRemove| == 0 {
        return;
      }
      var sorted := StringOrder.Sort(actors[id].componentsToRemove);
      actors := actors[id := actors[id].(componentsToRemove := sorted)];
      RemoveComponentKeys(id, sorted, env);
      actors := actors[id := actors[id].(componentsToRemove := [])];
    }

    /** `SceneDB::RemoveActorComponents`; `order` is the order the actor map
        was walked in. */
    method RemoveActorComponents(env: Env) returns (order: seq<int>)
      modifies this
      ensures forall id :: id in order <==> id in old(actors)
      ensures State() == RemoveComponents(old(State()), order, env)
    {
      order := Enumerate(actors);
      ghost var s0 := State();
      var i := 0;
      while i < |order|
        invariant 0 <= i <= |order|
        invariant State() == RemoveComponents(s0, order[..i], env)
      {
        RemoveComponentsNext(s0, order, i, env);
        RemoveComponentsOf(order[i], env);
        i := i + 1;
      }
      assert order[..|order|] == order;
    }

    // ------------------------------------------------------- destruction

    /** `SceneDB::ActorsPendingDestruction`: the queued actors are erased,
        then `actor_id_vec` is compacted with a read and a write index and
        cut to the written length. */
    method ActorsPendingDestruction()
      modifies this
      ensures State() == PendingDestruction(old(State()))
    {
      if |actorsToDestroy| == 0 {
        return;
      }
      var gone := IdSet(actorsToDestroy);
      var k := 0;
      var remaining := actors;
      while k < |actorsToDestroy|
        invariant 0 <= k <= |actorsToDestroy|
        invariant remaining == actors - IdSet(actorsToDestroy[..k])
      {
        assert IdSet(actorsToDestroy[..k + 1]) == IdSet(actorsToDestroy[..k]) + {actorsToDestroy[k]} by {
          assert actorsToDestroy[..k + 1] == actorsToDestroy[..k] + [actorsToDestroy[k]];
        }
        remaining := remaining - {actorsToDestroy[k]};
        k := k + 1;
      }
      assert actorsToDestroy[..k] == actorsToDestroy;
      actors := remaining;
      actorIdVec := Compact(actorIdVec, gone);
      actorsToDestroy := [];
    }

    /** The end of `UpdateScene`, corrected: the pending actors that still
        exist join `actor_id_vec`. */
    method AppendNewActors()
      modifies this
      ensures State() == AppendPending(old(State()))
    {
      ghost var s0 := State();
      var i := 0;
      while i < |actorsToAdd|
        invariant 0 <= i <= |actorsToAdd|
        invariant State() == s0.(actorIdVec := s0.actorIdVec + ExistingIds(s0, actorsToAdd[..i]))
      {
        assert actorsToAdd[..i + 1][..i] == actorsToAdd[..i];
        if actorsToAdd[i] in actors {
          actorIdVec := actorIdVec + [actorsToAdd[i]];
        }
        i := i + 1;
      }
      assert actorsToAdd[..i] == actorsToAdd;
      actorsToAdd := [];
    }

    // ------------------------------------------------------------- frame

    /** `SceneDB::UpdateScene`; the out-parameters are the orders the
        caches and the actor map were walked in. */
    method UpdateScene(env: Env)
      returns (startKeys: seq<ComponentKey>, updateKeys: seq<ComponentKey>,
               lateKeys: seq<ComponentKey>, order: seq<int>)
      requires Valid()
      modifies this
      ensures State() == Frame(old(State()), startKeys, updateKeys, lateKeys, order, env)
      ensures Valid()
      ensures actorsToAdd == [] && actorsToDestroy == []
    {
      ghost var s0 := State();
      startKeys := [];
      if onstartNew {
        onstartNew := false;
        startKeys := ProcessSceneOnStart(env);
      }
      InitRigidbodies();
      updateKeys := ProcessSceneUpdate(env);
      lateKeys := ProcessSceneLateUpdate(env);
      order := RemoveActorComponents(env);
      ActorsPendingDestruction();
      AppendNewActors();
      SceneLaws.FrameSpec(s0, startKeys, updateKeys, lateKeys, order, env);
    }

    // ------------------------------------------------------------ lookup

    /** `SceneDB::FindActor`. */
    method FindActor(name: string) returns (r: Option<int>)
      ensures r == SceneModel.FindActor(State(), name)
    {
      var i := 0;
      while i < |actorIdVec|
        invariant 0 <= i <= |actorIdVec|
        invariant FirstLive(State(), actorIdVec, name) == FirstLive(State(), actorIdVec[i..], name)
      {
        var id := actorIdVec[i];
        if id in actors && actors[id].name == name && !actors[id].destroyed {
          return Some(id);
        }
        assert actorIdVec[i..][1..] == actorIdVec[i + 1..];
        i := i + 1;
      }
      i := 0;
      while i < |actorsToAdd|
        invariant 0 <= i <= |actorsToAdd|
        invariant FirstNamed(State(), actorsToAdd, name) == FirstNamed(State(), actorsToAdd[i..], name)
      {
        var id := actorsToAdd[i];
        if id in actors && actors[id].name == name {
          return Some(id);
        }
        assert actorsToAdd[i..][1..] == actorsToAdd[i + 1..];
        i := i + 1;
      }
      return None;
    }

    /** `SceneDB::FindAllActor`. */
    method FindAllActor(name: string) returns (r: seq<int>)
      ensures r == SceneModel.FindAllActor(State(), name)
    {
      r := [];
      var i := 0;
      while i < |actorIdVec|
        invariant 0 <= i <= |actorIdVec|
        invariant r == AllLive(State(), actorIdVec[..i], name)
      {
        var id := actorIdVec[i];
        assert actorIdVec[..i + 1][..i] == actorIdVec[..i];
        if id in actors && actors[id].name == name && !actors[id].destroyed {
          r := r + [id];
        }
        i := i + 1;
      }
      assert actorIdVec[..i] == actorIdVec;
      var more := [];
      i := 0;
      while i < |actorsToAdd|
        invariant 0 <= i <= |actorsToAdd|
        invariant more == AllLive(State(), actorsToAdd[..i], name)
      {
        var id := actorsToAdd[i];
        assert actorsToAdd[..i + 1][..i] == actorsToAdd[..i];
        if id in actors && actors[id].name == name && !actors[id].destroyed {
          more := more + [id];
        }
        i := i + 1;
      }
      assert actorsToAdd[..i] == actorsToAdd;
      r := r + more;
    }
  }
}
