/** The per-frame component scheduler and actor registry of SceneDB.cpp, on
    values: a `Scene` is a snapshot of the registry, and each operation of
    `SceneDB` is a function from one snapshot to the next.

    Lua components are objects shared between an actor and the three
    callback caches, so they live in a handle store `heap` and both sides
    hold handles.  A Lua callback is abstract: the `script` of the
    environment says, for the n-th callback invocation of the run, whether
    it raised and which scene operations it called (destroy an actor,
    instantiate a template).  Every invocation is recorded in `trace`. */
module SceneModel {
  import opened Wrappers
  import StringOrder

  datatype ComponentKind = ScriptTable | RigidbodyUserdata | OtherUserdata

  /** The fields of a component the scheduler reads (Lua table fields, or the
      corresponding properties of a userdata component). */
  datatype Component = Component(
    kind: ComponentKind,
    enabled: bool,
    onStart: bool,
    frameAdded: int,
    newAddition: bool,
    hasOnStart: bool,
    hasOnUpdate: bool,
    hasOnLateUpdate: bool,
    hasOnDestroy: bool)

  /** `ComponentKey`: the cache key (actor id, component key). */
  datatype ComponentKey = ComponentKey(actorId: int, key: string)

  /** `Actor` (Actor.hpp:56-88); `componentKeys` is the ordered `std::set`. */
  datatype Actor = Actor(
    name: string,
    id: int,
    destroyed: bool,
    dontDestroy: bool,
    components: map<string, nat>,
    componentsToRemove: seq<string>,
    componentKeys: seq<string>)

  /** An entry of `rigidbodies_to_init`. */
  datatype RigidbodyInit = RigidbodyInit(actorId: int, componentKey: string, isNew: bool, frameAdded: int)

  datatype Callback = OnStart | OnUpdate | OnLateUpdate | OnDestroy | RigidbodyInitCall | RigidbodyOnDestroy

  /** The step of `UpdateScene` a callback ran in; `Outside` is any call
      made from outside `UpdateScene`. */
  datatype Step = StartStep | RigidbodyStep | UpdateStep | LateUpdateStep | RemovalStep | Outside

  /** One callback invocation. */
  datatype Event = Event(step: Step, callback: Callback, key: ComponentKey, ref: nat, raised: bool)

  /** What a Lua callback may do to the scene while it runs. */
  datatype Action = DestroyActorAction(target: int) | InstantiateAction(templateName: string)

  datatype Reaction = Reaction(actions: seq<Action>, raises: bool)

  /** An actor template: its name ("" when it has none), its component keys
      in `std::set` order and the component each key starts as. */
  datatype Template = Template(name: string, keys: seq<string>, protos: map<string, Component>)

  /** What the scene cannot see: the template files and the Lua side. */
  datatype Env = Env(templates: map<string, Template>, script: (nat, Callback, ComponentKey) -> Reaction)

  /** `on_start_cache`, `on_update_cache` and `on_late_update_cache`. */
  datatype Caches = Caches(
    onStart: map<ComponentKey, nat>,
    onUpdate: map<ComponentKey, nat>,
    onLateUpdate: map<ComponentKey, nat>)

  /** The members of `SceneDB` used by the scheduler, plus the frame number
      (`Helper::GetFrameNumber`) and the callback trace. */
  datatype Scene = Scene(
    actors: map<int, Actor>,
    actorIdVec: seq<int>,
    actorsToAdd: seq<int>,
    actorsToDestroy: seq<int>,
    idCtr: int,
    caches: Caches,
    rigidbodiesToInit: seq<RigidbodyInit>,
    heap: map<nat, Component>,
    nextRef: nat,
    onstartNew: bool,
    frame: int,
    trace: seq<Event>)

  // ---------------------------------------------------------------- caches

  /** Which caches `addComponentToCaches` puts a component in. */
  predicate GoesToStart(c: Component)
  {
    c.kind == ScriptTable && c.enabled && c.hasOnStart && !c.onStart
  }

  predicate GoesToUpdate(c: Component)
  {
    c.kind == RigidbodyUserdata || (c.kind == ScriptTable && c.enabled && c.hasOnUpdate)
  }

  predicate GoesToLateUpdate(c: Component)
  {
    c.kind == RigidbodyUserdata || (c.kind == ScriptTable && c.enabled && c.hasOnLateUpdate)
  }

  /** `SceneDB::addComponentToCaches` for the component `c` held at `ref`. */
  function AddToCaches(m: Caches, ck: ComponentKey, ref: nat, c: Component): (r: Caches)
    ensures r.onStart == if GoesToStart(c) then m.onStart[ck := ref] else m.onStart
    ensures r.onUpdate == if GoesToUpdate(c) then m.onUpdate[ck := ref] else m.onUpdate
    ensures r.onLateUpdate == if GoesToLateUpdate(c) then m.onLateUpdate[ck := ref] else m.onLateUpdate
  {
    if c.kind != ScriptTable then
      if c.kind == RigidbodyUserdata then
        m.(onUpdate := m.onUpdate[ck := ref], onLateUpdate := m.onLateUpdate[ck := ref])
      else m
    else if !c.enabled then m
    else
      Caches(if c.hasOnStart && !c.onStart then m.onStart[ck := ref] else m.onStart,
             if c.hasOnUpdate then m.onUpdate[ck := ref] else m.onUpdate,
             if c.hasOnLateUpdate then m.onLateUpdate[ck := ref] else m.onLateUpdate)
  }

  /** `SceneDB::removeComponentFromCaches`. */
  function RemoveFromCaches(m: Caches, ck: ComponentKey): (r: Caches)
    ensures ck !in r.onStart && ck !in r.onUpdate && ck !in r.onLateUpdate
    ensures forall k :: k != ck ==>
      (k in r.onStart <==> k in m.onStart) && (k in r.onUpdate <==> k in m.onUpdate)
      && (k in r.onLateUpdate <==> k in m.onLateUpdate)
  {
    Caches(m.onStart - {ck}, m.onUpdate - {ck}, m.onLateUpdate - {ck})
  }

  // ------------------------------------------------------------ OnDestroy

  /** The destroy callback of one component, if it has one: the Lua
      `OnDestroy`, else `Rigidbody::OnDestroy` for a Rigidbody.  What an
      `OnDestroy` callback does to the scene is not modelled. */
  function CallOnDestroy(s: Scene, ck: ComponentKey, ref: nat, c: Component, step: Step, env: Env): Scene
  {
    if c.hasOnDestroy then
      s.(trace := s.trace + [Event(step, OnDestroy, ck, ref, env.script(|s.trace|, OnDestroy, ck).raises)])
    else if c.kind == RigidbodyUserdata then
      s.(trace := s.trace + [Event(step, RigidbodyOnDestroy, ck, ref, false)])
    else s
  }

  /** One iteration of the key loop of `SceneDB::DestroyActor`
      (SceneDB.cpp:450-467). */
  function DestroyKey(s: Scene, id: int, k: string, step: Step, env: Env): (r: Scene)
    ensures r == s.(trace := r.trace, heap := r.heap, caches := r.caches)
    ensures s.trace <= r.trace && r.heap.Keys == s.heap.Keys
  {
    if id !in s.actors || k !in s.actors[id].components then s
    else
      var ref := s.actors[id].components[k];
      var ck := ComponentKey(id, k);
      if ref !in s.heap then s.(caches := RemoveFromCaches(s.caches, ck))
      else
        var c := s.heap[ref];
        var s1 := CallOnDestroy(s, ck, ref, c, step, env);
        s1.(heap := s1.heap[ref := c.(enabled := false)], caches := RemoveFromCaches(s1.caches, ck))
  }

  function DestroyKeys(s: Scene, id: int, keys: seq<string>, step: Step, env: Env): (r: Scene)
    ensures r == s.(trace := r.trace, heap := r.heap, caches := r.caches)
    ensures s.trace <= r.trace && r.heap.Keys == s.heap.Keys
    decreases |keys|
  {
    if |keys| == 0 then s
    else DestroyKey(DestroyKeys(s, id, keys[..|keys| - 1], step, env), id, keys[|keys| - 1], step, env)
  }

  /** `SceneDB::DestroyActor`: flag, queue, then every component in sorted
      key order.  An id that names no actor changes nothing (the source
      takes a live `Actor*`). */
  function Destroyed(s: Scene, id: int, step: Step, env: Env): (r: Scene)
    ensures id !in s.actors ==> r == s
    ensures id in s.actors ==> id in r.actors && r.actors[id].destroyed
    ensures id in s.actors ==> r.actorsToDestroy == s.actorsToDestroy + [id]
    ensures r.actors.Keys == s.actors.Keys && s.trace <= r.trace
    ensures r.actorIdVec == s.actorIdVec && r.actorsToAdd == s.actorsToAdd && r.idCtr == s.idCtr
  {
    if id !in s.actors then s
    else
      var a := s.actors[id];
      var s1 := s.(actors := s.actors[id := a.(destroyed := true)], actorsToDestroy := s.actorsToDestroy + [id]);
      DestroyKeys(s1, id, StringOrder.Sort(a.componentKeys), step, env)
  }

  // ---------------------------------------------------------- instantiate

  /** A template component as created: a table is stamped with the frame
      and marked as a new addition. */
  function Stamped(proto: Component, frame: int): Component
  {
    if proto.kind == ScriptTable then proto.(frameAdded := frame, newAddition := true) else proto
  }

  /** A new component stored under a fresh handle and attached to actor
      `id` under key `k`; a Rigidbody is queued for initialisation. */
  function StoreComponent(s: Scene, id: int, k: string, comp: Component): (r: Scene)
    requires id in s.actors
    ensures r.trace == s.trace && r.idCtr == s.idCtr && r.actorIdVec == s.actorIdVec
    ensures r.actorsToAdd == s.actorsToAdd && r.actorsToDestroy == s.actorsToDestroy
    ensures id in r.actors
  {
    var ref := s.nextRef;
    var a := s.actors[id];
    s.(heap := s.heap[ref := comp], nextRef := ref + 1,
       actors := s.actors[id := a.(components := a.components[k := ref])],
       rigidbodiesToInit := if comp.kind == RigidbodyUserdata
                            then s.rigidbodiesToInit + [RigidbodyInit(id, k, true, s.frame)]
                            else s.rigidbodiesToInit)
  }

  /** One component of a new actor: created from its template entry, stamped
      with the frame when it is a table, queued for rigidbody init when it is
      a Rigidbody, and registered in the caches (SceneDB.cpp:415-431). */
  function InstantiateKey(s: Scene, id: int, t: Template, k: string): (r: Scene)
    ensures r.trace == s.trace && r.idCtr == s.idCtr && r.actorIdVec == s.actorIdVec
    ensures r.actorsToAdd == s.actorsToAdd && r.actorsToDestroy == s.actorsToDestroy
    ensures id in s.actors ==> id in r.actors
  {
    if id !in s.actors || k !in t.protos then s
    else
      var comp := Stamped(t.protos[k], s.frame);
      var s1 := StoreComponent(s, id, k, comp);
      s1.(caches := AddToCaches(s1.caches, ComponentKey(id, k), s.nextRef, comp))
  }

  function InstantiateKeys(s: Scene, id: int, t: Template, keys: seq<string>): (r: Scene)
    ensures r.trace == s.trace && r.idCtr == s.idCtr && r.actorIdVec == s.actorIdVec
    ensures r.actorsToAdd == s.actorsToAdd && r.actorsToDestroy == s.actorsToDestroy
    ensures id in s.actors ==> id in r.actors
    decreases |keys|
  {
    if |keys| == 0 then s
    else InstantiateKey(InstantiateKeys(s, id, t, keys[..|keys| - 1]), id, t, keys[|keys| - 1])
  }

  /** The next id taken and an empty actor stored under it
      (SceneDB.cpp:408-409). */
  function Reserved(s: Scene): Scene
  {
    s.(idCtr := s.idCtr + 1, actors := s.actors[s.idCtr := Actor("", s.idCtr, false, false, map[], [], [])])
  }

  /** The actor `id` filled from a template: its name, its keys, then its
      components in key order. */
  function FromTemplate(s: Scene, id: int, t: Template): (r: Scene)
    ensures r.trace == s.trace && r.idCtr == s.idCtr && r.actorIdVec == s.actorIdVec
    ensures r.actorsToAdd == s.actorsToAdd && r.actorsToDestroy == s.actorsToDestroy
    ensures id in r.actors
  {
    InstantiateKeys(s.(actors := s.actors[id := Actor(t.name, id, false, false, map[], [], t.keys)]), id, t, t.keys)
  }

  /** `SceneDB::InstantiateActor`.  The id is taken and an empty actor is
      stored before the template is read, so a missing template (where the
      source throws `ResourceNotFoundException`) leaves both behind and
      yields `None`. */
  function Instantiated(s: Scene, templateName: string, env: Env): (r: (Scene, Option<int>))
    ensures r.1.None? <==> templateName !in env.templates
    ensures r.1.Some? ==> r.1.value == s.idCtr && r.0.actorsToAdd == s.actorsToAdd + [s.idCtr] && r.0.onstartNew
    ensures r.1.None? ==> r.0.actorsToAdd == s.actorsToAdd
    ensures r.0.idCtr == s.idCtr + 1 && s.idCtr in r.0.actors
    ensures r.0.trace == s.trace && r.0.actorIdVec == s.actorIdVec && r.0.actorsToDestroy == s.actorsToDestroy
  {
    var id := s.idCtr;
    var s1 := Reserved(s);
    if templateName !in env.templates then (s1, None)
    else
      var s2 := FromTemplate(s1, id, env.templates[templateName]);
      (s2.(actorsToAdd := s2.actorsToAdd + [id], onstartNew := true), Some(id))
  }

  // ------------------------------------------------------------ callbacks

  function ApplyAction(s: Scene, a: Action, step: Step, env: Env): (r: Scene)
    ensures s.trace <= r.trace
  {
    match a
    case DestroyActorAction(target) => Destroyed(s, target, step, env)
    case InstantiateAction(name) => Instantiated(s, name, env).0
  }

  function ApplyActions(s: Scene, actions: seq<Action>, step: Step, env: Env): (r: Scene)
    ensures s.trace <= r.trace
    decreases |actions|
  {
    if |actions| == 0 then s
    else ApplyAction(ApplyActions(s, actions[..|actions| - 1], step, env), actions[|actions| - 1], step, env)
  }

  /** Calling a Lua callback: it is recorded, then it does what the script
      says; a raised error is caught and logged, so the pass goes on. */
  function Invoke(s: Scene, cb: Callback, ck: ComponentKey, ref: nat, step: Step, env: Env): (r: Scene)
    ensures s.trace <= r.trace && |r.trace| > |s.trace|
    ensures r.trace[|s.trace|] == Event(step, cb, ck, ref, env.script(|s.trace|, cb, ck).raises)
  {
    var r := env.script(|s.trace|, cb, ck);
    ApplyActions(s.(trace := s.trace + [Event(step, cb, ck, ref, r.raises)]), r.actions, step, env)
  }

  /** The actor of a cache key exists and is not destroyed. */
  predicate Live(s: Scene, ck: ComponentKey)
  {
    ck.actorId in s.actors && !s.actors[ck.actorId].destroyed
  }

  /** Added in the current frame (`frame_added == frame && new_addition`). */
  predicate JustAdded(s: Scene, c: Component)
  {
    c.frameAdded == s.frame && c.newAddition
  }

  /** One entry of `ProcessSceneOnStart` (SceneDB.cpp:227-245): `on_start` is
      set after the call whether or not it raised. */
  function StartOne(s: Scene, cache: map<ComponentKey, nat>, ck: ComponentKey, env: Env): (r: Scene)
    ensures s.trace <= r.trace
    ensures |r.trace| == |s.trace| ==> r == s
    ensures |r.trace| > |s.trace| ==>
      && ck in cache && Live(s, ck) && cache[ck] in s.heap
      && s.heap[cache[ck]].enabled && !s.heap[cache[ck]].onStart && !JustAdded(s, s.heap[cache[ck]])
      && r.trace[|s.trace|].callback == OnStart && r.trace[|s.trace|].key == ck
      && (cache[ck] in r.heap ==> r.heap[cache[ck]].onStart)
  {
    if ck !in cache || !Live(s, ck) || cache[ck] !in s.heap then s
    else
      var ref := cache[ck];
      var c := s.heap[ref];
      if !c.enabled || c.onStart || JustAdded(s, c) then s
      else
        var t := Invoke(s, OnStart, ck, ref, StartStep, env);
        if ref in t.heap then t.(heap := t.heap[ref := t.heap[ref].(onStart := true)]) else t
  }

  function StartKeys(s: Scene, cache: map<ComponentKey, nat>, keys: seq<ComponentKey>, env: Env): (r: Scene)
    ensures s.trace <= r.trace
    decreases |keys|
  {
    if |keys| == 0 then s
    else StartOne(StartKeys(s, cache, keys[..|keys| - 1], env), cache, keys[|keys| - 1], env)
  }

  /** `SceneDB::ProcessSceneOnStart`: the cache is moved out and emptied,
      then its entries run in `keys` order (the map's iteration order). */
  function ProcessStart(s: Scene, keys: seq<ComponentKey>, env: Env): (r: Scene)
    ensures |s.caches.onStart| == 0 ==> r == s
    ensures s.trace <= r.trace
  {
    if |s.caches.onStart| == 0 then s
    else StartKeys(s.(caches := s.caches.(onStart := map[])), s.caches.onStart, keys, env)
  }

  /** One key of `ProcessSceneUpdate` (SceneDB.cpp:258-283): looked up in
      the live cache, so an entry erased earlier in the pass is skipped. */
  function UpdateOne(s: Scene, ck: ComponentKey, env: Env): (r: Scene)
    ensures s.trace <= r.trace
    ensures |r.trace| == |s.trace| ==> r == s
    ensures |r.trace| > |s.trace| ==>
      && ck in s.caches.onUpdate && Live(s, ck) && s.caches.onUpdate[ck] in s.heap
      && s.heap[s.caches.onUpdate[ck]].kind == ScriptTable && s.heap[s.caches.onUpdate[ck]].enabled
      && !JustAdded(s, s.heap[s.caches.onUpdate[ck]])
      && r.trace[|s.trace|].callback == OnUpdate && r.trace[|s.trace|].key == ck
  {
    if ck !in s.caches.onUpdate || !Live(s, ck) || s.caches.onUpdate[ck] !in s.heap then s
    else
      var ref := s.caches.onUpdate[ck];
      var c := s.heap[ref];
      if c.kind != ScriptTable || !c.enabled || JustAdded(s, c) then s
      else Invoke(s, OnUpdate, ck, ref, UpdateStep, env)
  }

  function UpdateKeys(s: Scene, keys: seq<ComponentKey>, env: Env): (r: Scene)
    ensures s.trace <= r.trace
    decreases |keys|
  {
    if |keys| == 0 then s
    else UpdateOne(UpdateKeys(s, keys[..|keys| - 1], env), keys[|keys| - 1], env)
  }

  /** `SceneDB::ProcessSceneUpdate` over the snapshot `keys`. */
  function ProcessUpdate(s: Scene, keys: seq<ComponentKey>, env: Env): (r: Scene)
    ensures |s.caches.onUpdate| == 0 ==> r == s
    ensures s.trace <= r.trace
  {
    if |s.caches.onUpdate| == 0 then s else UpdateKeys(s, keys, env)
  }

  /** One key of `ProcessSceneLateUpdate` (SceneDB.cpp:296-316): the same
      guards as the update pass except the userdata check. */
  function LateOne(s: Scene, ck: ComponentKey, env: Env): (r: Scene)
    ensures s.trace <= r.trace
    ensures |r.trace| == |s.trace| ==> r == s
    ensures |r.trace| > |s.trace| ==>
      && ck in s.caches.onLateUpdate && Live(s, ck) && s.caches.onLateUpdate[ck] in s.heap
      && s.heap[s.caches.onLateUpdate[ck]].enabled && !JustAdded(s, s.heap[s.caches.onLateUpdate[ck]])
      && r.trace[|s.trace|].callback == OnLateUpdate && r.trace[|s.trace|].key == ck
  {
    if ck !in s.caches.onLateUpdate || !Live(s, ck) || s.caches.onLateUpdate[ck] !in s.heap then s
    else
      var ref := s.caches.onLateUpdate[ck];
      var c := s.heap[ref];
      if !c.enabled || JustAdded(s, c) then s
      else Invoke(s, OnLateUpdate, ck, ref, LateUpdateStep, env)
  }

  function LateKeys(s: Scene, keys: seq<ComponentKey>, env: Env): (r: Scene)
    ensures s.trace <= r.trace
    decreases |keys|
  {
    if |keys| == 0 then s
    else LateOne(LateKeys(s, keys[..|keys| - 1], env), keys[|keys| - 1], env)
  }

  /** `SceneDB::ProcessSceneLateUpdate` over the snapshot `keys`. */
  function ProcessLateUpdate(s: Scene, keys: seq<ComponentKey>, env: Env): (r: Scene)
    ensures |s.caches.onLateUpdate| == 0 ==> r == s
    ensures s.trace <= r.trace
  {
    if |s.caches.onLateUpdate| == 0 then s else LateKeys(s, keys, env)
  }

  // ------------------------------------------------------ rigidbody init

  datatype InitResult = InitResult(kept: seq<RigidbodyInit>, events: seq<Event>)

  /** The `rigidbodies_to_init` loop of `UpdateScene` (SceneDB.cpp:176-204):
      an entry added this frame and still new is kept once with `isNew`
      cleared; every other entry is erased, after `Rigidbody::Init` when its
      actor and component still exist and the component is a Rigidbody. */
  function InitPass(s: Scene, entries: seq<RigidbodyInit>): (r: InitResult)
    ensures |r.kept| + |r.events| <= |entries|
    decreases |entries|
  {
    if |entries| == 0 then InitResult([], [])
    else
      var r := InitPass(s, entries[..|entries| - 1]);
      var e := entries[|entries| - 1];
      if e.isNew && e.frameAdded == s.frame then InitResult(r.kept + [e.(isNew := false)], r.events)
      else if e.actorId !in s.actors || e.componentKey !in s.actors[e.actorId].components then r
      else
        var ref := s.actors[e.actorId].components[e.componentKey];
        if ref in s.heap && s.heap[ref].kind == RigidbodyUserdata then
          InitResult(r.kept, r.events + [Event(RigidbodyStep, RigidbodyInitCall, ComponentKey(e.actorId, e.componentKey), ref, false)])
        else r
  }

  function ProcessRigidbodies(s: Scene): (r: Scene)
    ensures s.trace <= r.trace && |r.rigidbodiesToInit| <= |s.rigidbodiesToInit|
  {
    var r := InitPass(s, s.rigidbodiesToInit);
    s.(rigidbodiesToInit := r.kept, trace := s.trace + r.events)
  }

  // -------------------------------------------------- component removal

  /** `std::set::erase` on the ordered key list. */
  function Without(keys: seq<string>, k: string): (r: seq<string>)
    ensures forall x :: x in r <==> x in keys && x != k
    ensures StringOrder.StrictlySorted(keys) ==> StringOrder.StrictlySorted(r)
    decreases |keys|
  {
    if |keys| == 0 then []
    else
      var rest := Without(keys[1..], k);
      assert forall x :: x in keys <==> x == keys[0] || x in keys[1..];
      if keys[0] == k then rest
      else
        assert StringOrder.StrictlySorted(keys) ==> forall j :: 0 <= j < |rest| ==> StringOrder.Less(keys[0], rest[j]) by {
          if StringOrder.StrictlySorted(keys) {
            forall j | 0 <= j < |rest|
              ensures StringOrder.Less(keys[0], rest[j])
            {
              assert rest[j] in keys[1..];
              var m :| 0 <= m < |keys[1..]| && keys[1..][m] == rest[j];
              assert keys[m + 1] == rest[j];
            }
          }
        }
        [keys[0]] + rest
  }

  /** One key of an actor's sorted removal list (SceneDB.cpp:331-351). */
  function RemoveKey(s: Scene, id: int, k: string, env: Env): (r: Scene)
    ensures r == s.(trace := r.trace, actors := r.actors)
    ensures r.actors.Keys == s.actors.Keys && s.trace <= r.trace
  {
    if id !in s.actors then s
    else
      var a := s.actors[id];
      var s1 := if k in a.components && a.components[k] in s.heap
                then CallOnDestroy(s, ComponentKey(id, k), a.components[k], s.heap[a.components[k]], RemovalStep, env)
                else s;
      s1.(actors := s1.actors[id := a.(componentKeys := Without(a.componentKeys, k), components := a.components - {k})])
  }

  function RemoveKeys(s: Scene, id: int, keys: seq<string>, env: Env): (r: Scene)
    ensures r == s.(trace := r.trace, actors := r.actors)
    ensures r.actors.Keys == s.actors.Keys && s.trace <= r.trace
    decreases |keys|
  {
    if |keys| == 0 then s
    else RemoveKey(RemoveKeys(s, id, keys[..|keys| - 1], env), id, keys[|keys| - 1], env)
  }

  /** One actor of `SceneDB::RemoveActorComponents`: the removal list is
      sorted, each key removed, the list cleared. */
  function RemoveForActor(s: Scene, id: int, env: Env): (r: Scene)
    ensures r == s.(trace := r.trace, actors := r.actors)
    ensures r.actors.Keys == s.actors.Keys && s.trace <= r.trace
    ensures id in s.actors ==> r.actors[id].componentsToRemove == []
  {
    if id !in s.actors || |s.actors[id].componentsToRemove| == 0 then s
    else
      var sorted := StringOrder.Sort(s.actors[id].componentsToRemove);
      var s1 := s.(actors := s.actors[id := s.actors[id].(componentsToRemove := sorted)]);
      var s2 := RemoveKeys(s1, id, sorted, env);
      s2.(actors := s2.actors[id := s2.actors[id].(componentsToRemove := [])])
  }

  /** `SceneDB::RemoveActorComponents` over the actors in `order` (the map's
      iteration order). */
  function RemoveComponents(s: Scene, order: seq<int>, env: Env): (r: Scene)
    ensures r == s.(trace := r.trace, actors := r.actors)
    ensures r.actors.Keys == s.actors.Keys && s.trace <= r.trace
    decreases |order|
  {
    if |order| == 0 then s
    else RemoveForActor(RemoveComponents(s, order[..|order| - 1], env), order[|order| - 1], env)
  }

  // ------------------------------------------------- pending destruction

  /** The ids of a list, as a set. */
  function IdSet(ids: seq<int>): set<int>
  {
    set i | i in ids
  }

  /** The read/write-index compaction of `ActorsPendingDestruction`: the ids
      not in `gone`, in their order. */
  function FilterOut(ids: seq<int>, gone: set<int>): seq<int>
    decreases |ids|
  {
    if |ids| == 0 then []
    else FilterOut(ids[..|ids| - 1], gone) + (if ids[|ids| - 1] in gone then [] else [ids[|ids| - 1]])
  }

  /** `SceneDB::ActorsPendingDestruction`. */
  function PendingDestruction(s: Scene): (r: Scene)
    ensures r.actorsToDestroy == [] && r.trace == s.trace && r.actorsToAdd == s.actorsToAdd
    ensures forall id :: id in r.actors <==> id in s.actors && id !in s.actorsToDestroy
  {
    if |s.actorsToDestroy| == 0 then s
    else
      var gone := IdSet(s.actorsToDestroy);
      s.(actors := s.actors - gone, actorIdVec := FilterOut(s.actorIdVec, gone), actorsToDestroy := [])
  }

  /** The end of `UpdateScene` as written (SceneDB.cpp:211-214): every
      pending actor's id is read through its pointer and appended.  An actor
      destroyed in the frame it was instantiated has already been freed by
      `ActorsPendingDestruction`; reading its id is undefined behaviour,
      modelled as `None`. */
  function AppendPendingAsWritten(s: Scene): (r: Option<Scene>)
    ensures r.None? <==> exists i :: 0 <= i < |s.actorsToAdd| && s.actorsToAdd[i] !in s.actors
    ensures r.Some? ==> r.value.actorIdVec == s.actorIdVec + s.actorsToAdd && r.value.actorsToAdd == []
  {
    if forall i :: 0 <= i < |s.actorsToAdd| ==> s.actorsToAdd[i] in s.actors
    then Some(s.(actorIdVec := s.actorIdVec + s.actorsToAdd, actorsToAdd := []))
    else None
  }

  /** The ids of `ids` whose actor still exists, in order. */
  function ExistingIds(s: Scene, ids: seq<int>): (r: seq<int>)
    ensures |r| <= |ids|
    decreases |ids|
  {
    if |ids| == 0 then []
    else ExistingIds(s, ids[..|ids| - 1]) + (if ids[|ids| - 1] in s.actors then [ids[|ids| - 1]] else [])
  }

  /** The end of `UpdateScene` as evidently intended: the instantiated
      actors that still exist join `actor_id_vec`; the pending list is
      cleared. */
  function AppendPending(s: Scene): (r: Scene)
    ensures r.actorsToAdd == [] && r.actors == s.actors && r.trace == s.trace
    ensures s.actorIdVec <= r.actorIdVec && |r.actorIdVec| <= |s.actorIdVec| + |s.actorsToAdd|
  {
    s.(actorIdVec := s.actorIdVec + ExistingIds(s, s.actorsToAdd), actorsToAdd := [])
  }

  // ------------------------------------------------------------- lookup

  /** The first loop of `SceneDB::FindActor`: a live actor of that name. */
  function FirstLive(s: Scene, ids: seq<int>, name: string): (r: Option<int>)
    ensures r.Some? ==> r.value in s.actors && s.actors[r.value].name == name && !s.actors[r.value].destroyed
    decreases |ids|
  {
    if |ids| == 0 then None
    else if ids[0] in s.actors && s.actors[ids[0]].name == name && !s.actors[ids[0]].destroyed then Some(ids[0])
    else FirstLive(s, ids[1..], name)
  }

  /** The second loop of `SceneDB::FindActor`, over `actors_to_add`: the
      name alone decides. */
  function FirstNamed(s: Scene, ids: seq<int>, name: string): (r: Option<int>)
    ensures r.Some? ==> r.value in s.actors && s.actors[r.value].name == name
    decreases |ids|
  {
    if |ids| == 0 then None
    else if ids[0] in s.actors && s.actors[ids[0]].name == name then Some(ids[0])
    else FirstNamed(s, ids[1..], name)
  }

  /** `SceneDB::FindActor`. */
  function FindActor(s: Scene, name: string): (r: Option<int>)
    ensures r.Some? ==> r.value in s.actors && s.actors[r.value].name == name
    ensures FirstLive(s, s.actorIdVec, name).Some? ==> r == FirstLive(s, s.actorIdVec, name)
  {
    match FirstLive(s, s.actorIdVec, name)
    case Some(id) => Some(id)
    case None => FirstNamed(s, s.actorsToAdd, name)
  }

  /** The ids `SceneDB::FindAllActor` collects from one list: live actors of
      that name, in order. */
  function AllLive(s: Scene, ids: seq<int>, name: string): (r: seq<int>)
    ensures |r| <= |ids|
    decreases |ids|
  {
    if |ids| == 0 then []
    else
      var last := ids[|ids| - 1];
      AllLive(s, ids[..|ids| - 1], name)
      + (if last in s.actors && s.actors[last].name == name && !s.actors[last].destroyed then [last] else [])
  }

  /** `SceneDB::FindAllActor`: `actor_id_vec`, then `actors_to_add`. */
  function FindAllActor(s: Scene, name: string): (r: seq<int>)
    ensures |r| <= |s.actorIdVec| + |s.actorsToAdd|
    ensures AllLive(s, s.actorIdVec, name) <= r
  {
    AllLive(s, s.actorIdVec, name) + AllLive(s, s.actorsToAdd, name)
  }

  // ------------------------------------------------------------- a frame

  /** The start of `UpdateScene`: the start pass runs when an actor was
      instantiated since the last one, and the flag is cleared first. */
  function StartIfNew(s: Scene, keys: seq<ComponentKey>, env: Env): (r: Scene)
    ensures !s.onstartNew ==> r == s
    ensures s.trace <= r.trace
  {
    if s.onstartNew then ProcessStart(s.(onstartNew := false), keys, env) else s
  }

  /** The end of `UpdateScene`: component removal, destruction, and the new
      actors joining `actor_id_vec` (corrected append). */
  function Cleanup(s: Scene, order: seq<int>, env: Env): (r: Scene)
    ensures r.actorsToAdd == [] && r.actorsToDestroy == [] && s.trace <= r.trace
    ensures forall id :: id in r.actors ==> id in s.actors
  {
    AppendPending(PendingDestruction(RemoveComponents(s, order, env)))
  }

  /** `SceneDB::UpdateScene` (SceneDB.cpp:168-217) with the corrected
      append.  The iteration orders of the three caches and of the actor map
      are parameters. */
  function Frame(s: Scene, startKeys: seq<ComponentKey>, updateKeys: seq<ComponentKey>,
                 lateKeys: seq<ComponentKey>, order: seq<int>, env: Env): (r: Scene)
    ensures r.actorsToAdd == [] && r.actorsToDestroy == [] && s.trace <= r.trace
  {
    var s2 := ProcessRigidbodies(StartIfNew(s, startKeys, env));
    Cleanup(ProcessLateUpdate(ProcessUpdate(s2, updateKeys, env), lateKeys, env), order, env)
  }
}
