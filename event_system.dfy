/** The publish/subscribe bus (EventSystem.hpp / EventSystem.cpp): per event
    name the list of its subscriptions in subscription order, and per
    subscription id the event it belongs to.  Ids come from one counter for
    both `Subscribe` and `SubscribeOnce`; a once-subscription is dropped by
    the first `Emit` that reaches it.  A Lua callback may itself call back
    into the bus while `Emit` runs; what each callback does is a parameter
    of `Emit`. */
module Events {

  /** `EventSubscription`; the callback is a Lua function (anything else is
      refused when subscribing), so only its id and kind are kept. */
  datatype Subscription = Subscription(id: int, once: bool)

  /** A snapshot of the bus: `subscriptions`, `subscription_to_event` and
      `next_subscription_id`. */
  datatype Bus = Bus(
    subscriptions: map<string, seq<Subscription>>,
    subscriptionToEvent: map<int, string>,
    nextId: int)

  predicate HasId(subs: seq<Subscription>, id: int)
  {
    exists i :: 0 <= i < |subs| && subs[i].id == id
  }

  /** The ids of a list of subscriptions. */
  function IdSet(subs: seq<Subscription>): set<int>
  {
    set i | 0 <= i < |subs| :: subs[i].id
  }

  /** The two maps agree: `subscriptionToEvent[id] == e` exactly when a
      subscription with `id` is listed under `e`; every id is below the
      counter, which starts at 1; ids grow along each list. */
  ghost predicate Consistent(b: Bus)
  {
    && b.nextId >= 1
    && (forall id :: id in b.subscriptionToEvent ==>
          1 <= id < b.nextId
          && b.subscriptionToEvent[id] in b.subscriptions
          && HasId(b.subscriptions[b.subscriptionToEvent[id]], id))
    && (forall e, i :: e in b.subscriptions && 0 <= i < |b.subscriptions[e]| ==>
          b.subscriptions[e][i].id in b.subscriptionToEvent
          && b.subscriptionToEvent[b.subscriptions[e][i].id] == e)
    && (forall e :: e in b.subscriptions ==> Increasing(b.subscriptions[e]))
  }

  /** Ids grow along a list: each subscription is appended with a fresh,
      larger id. */
  predicate Increasing(subs: seq<Subscription>)
  {
    forall i, j :: 0 <= i < j < |subs| ==> subs[i].id < subs[j].id
  }

  /** The invariant in the words of the engine: `subscriptionToEvent[id] == e`
      if and only if `id` is in `subscriptions[e]`. */
  lemma ConsistentLookup(b: Bus, id: int, e: string)
    requires Consistent(b)
    ensures (id in b.subscriptionToEvent && b.subscriptionToEvent[id] == e)
            <==> (e in b.subscriptions && HasId(b.subscriptions[e], id))
  {
    if e in b.subscriptions && HasId(b.subscriptions[e], id) {
      var i :| 0 <= i < |b.subscriptions[e]| && b.subscriptions[e][i].id == id;
    }
  }

  /** No list holds the id. */
  ghost predicate Gone(b: Bus, id: int)
  {
    id !in b.subscriptionToEvent && forall e :: e in b.subscriptions ==> !HasId(b.subscriptions[e], id)
  }

  /** The bus after `Init`, and after `Clear` with the counter kept. */
  function Cleared(nextId: int): Bus
  {
    Bus(map[], map[], nextId)
  }

  lemma ClearedConsistent(nextId: int)
    requires nextId >= 1
    ensures Consistent(Cleared(nextId))
    ensures forall id :: Gone(Cleared(nextId), id)
  {
  }

  /** The list of an event, empty when the event has none
      (`subscriptions[event_name]` creates it). */
  function ListOf(b: Bus, e: string): seq<Subscription>
  {
    if e in b.subscriptions then b.subscriptions[e] else []
  }

  /** `Subscribe` (`once` false) or `SubscribeOnce` (`once` true) with a Lua
      function: the next id is appended to the event's list and recorded. */
  function Subscribed(b: Bus, e: string, once: bool): (r: Bus)
    ensures r.nextId == b.nextId + 1
    ensures e in r.subscriptions && HasId(r.subscriptions[e], b.nextId)
    ensures b.nextId in r.subscriptionToEvent && r.subscriptionToEvent[b.nextId] == e
    ensures forall f :: f != e ==> ListOf(r, f) == ListOf(b, f)
    ensures forall id :: id in b.subscriptionToEvent && id != b.nextId ==>
      id in r.subscriptionToEvent && r.subscriptionToEvent[id] == b.subscriptionToEvent[id]
  {
    assert (ListOf(b, e) + [Subscription(b.nextId, once)])[|ListOf(b, e)|].id == b.nextId;
    Bus(b.subscriptions[e := ListOf(b, e) + [Subscription(b.nextId, once)]],
        b.subscriptionToEvent[b.nextId := e],
        b.nextId + 1)
  }

  /** A subscription keeps the maps in agreement, goes last in its event's
      list, and leaves every other event untouched. */
  lemma SubscribedConsistent(b: Bus, e: string, once: bool)
    requires Consistent(b)
    ensures Consistent(Subscribed(b, e, once))
    ensures Subscribed(b, e, once).subscriptions[e] == ListOf(b, e) + [Subscription(b.nextId, once)]
    ensures b.nextId !in b.subscriptionToEvent
    ensures forall f :: f != e ==> ListOf(Subscribed(b, e, once), f) == ListOf(b, f)
  {
    SubscribedLookupListed(b, e, once);
    SubscribedListedMapped(b, e, once);
    SubscribedIncreasing(b, e, once);
  }

  lemma SubscribedLookupListed(b: Bus, e: string, once: bool)
    requires Consistent(b)
    ensures forall id :: id in Subscribed(b, e, once).subscriptionToEvent ==>
      var r := Subscribed(b, e, once);
      1 <= id < r.nextId && r.subscriptionToEvent[id] in r.subscriptions
      && HasId(r.subscriptions[r.subscriptionToEvent[id]], id)
  {
    var r := Subscribed(b, e, once);
    forall id | id in r.subscriptionToEvent
      ensures 1 <= id < r.nextId && r.subscriptionToEvent[id] in r.subscriptions
              && HasId(r.subscriptions[r.subscriptionToEvent[id]], id)
    {
      if id == b.nextId {
        assert r.subscriptions[e][|ListOf(b, e)|].id == id;
      } else {
        var f := b.subscriptionToEvent[id];
        var i :| 0 <= i < |b.subscriptions[f]| && b.subscriptions[f][i].id == id;
        assert r.subscriptions[f][i].id == id;
      }
    }
  }

  lemma SubscribedListedMapped(b: Bus, e: string, once: bool)
    requires Consistent(b)
    ensures forall f, i :: f in Subscribed(b, e, once).subscriptions && 0 <= i < |Subscribed(b, e, once).subscriptions[f]| ==>
      var r := Subscribed(b, e, once);
      r.subscriptions[f][i].id in r.subscriptionToEvent
      && r.subscriptionToEvent[r.subscriptions[f][i].id] == f
  {
    var r := Subscribed(b, e, once);
    forall f, i | f in r.subscriptions && 0 <= i < |r.subscriptions[f]|
      ensures r.subscriptions[f][i].id in r.subscriptionToEvent
              && r.subscriptionToEvent[r.subscriptions[f][i].id] == f
    {
      if f == e && i == |ListOf(b, e)| {
      } else {
        assert r.subscriptions[f][i] == b.subscriptions[f][i];
      }
    }
  }

  lemma SubscribedIncreasing(b: Bus, e: string, once: bool)
    requires Consistent(b)
    ensures forall f :: f in Subscribed(b, e, once).subscriptions ==> Increasing(Subscribed(b, e, once).subscriptions[f])
  {
    var r := Subscribed(b, e, once);
    var old_ := ListOf(b, e);
    var l := r.subscriptions[e];
    forall i, j | 0 <= i < j < |l|
      ensures l[i].id < l[j].id
    {
      if j == |old_| {
        assert l[i] == b.subscriptions[e][i];
      } else {
        assert l[i] == old_[i] && l[j] == old_[j];
      }
    }
  }

  /** The `remove_if` of `Unsubscribe`: every entry with the id dropped. */
  function RemoveId(subs: seq<Subscription>, id: int): (r: seq<Subscription>)
    ensures !HasId(r, id)
    ensures forall s :: s in r <==> s in subs && s.id != id
    ensures Increasing(subs) ==> Increasing(r)
    decreases |subs|
  {
    if |subs| == 0 then []
    else
      var rest := RemoveId(subs[1..], id);
      assert forall s :: s in subs <==> s == subs[0] || s in subs[1..];
      if subs[0].id == id then rest
      else
        assert Increasing(subs) ==> forall k :: 0 <= k < |rest| ==> subs[0].id < rest[k].id by {
          if Increasing(subs) {
            forall k | 0 <= k < |rest|
              ensures subs[0].id < rest[k].id
            {
              assert rest[k] in subs[1..];
              var m :| 0 <= m < |subs[1..]| && subs[1..][m] == rest[k];
              assert subs[m + 1] == rest[k];
            }
          }
        }
        [subs[0]] + rest
  }

  /** `EventSystem::Unsubscribe` (EventSystem.cpp:86-105). */
  function Unsubscribed(b: Bus, id: int): (r: Bus)
    ensures r.nextId == b.nextId
    ensures id !in r.subscriptionToEvent
    ensures forall other :: other != id ==>
      (other in r.subscriptionToEvent <==> other in b.subscriptionToEvent)
    ensures id in b.subscriptionToEvent ==> !HasId(ListOf(r, b.subscriptionToEvent[id]), id)
    ensures forall f :: (id !in b.subscriptionToEvent || f != b.subscriptionToEvent[id]) ==> ListOf(r, f) == ListOf(b, f)
  {
    if id !in b.subscriptionToEvent then b
    else
      var e := b.subscriptionToEvent[id];
      Bus(if e in b.subscriptions then b.subscriptions[e := RemoveId(b.subscriptions[e], id)]
          else b.subscriptions,
          b.subscriptionToEvent - {id},
          b.nextId)
  }

  /** Unsubscribing keeps the maps in agreement and removes the id from both;
      an unknown id changes nothing; every other subscription stays. */
  lemma UnsubscribedConsistent(b: Bus, id: int)
    requires Consistent(b)
    ensures Consistent(Unsubscribed(b, id))
    ensures Gone(Unsubscribed(b, id), id)
    ensures id !in b.subscriptionToEvent ==> Unsubscribed(b, id) == b
    ensures forall other :: other != id ==>
      (other in Unsubscribed(b, id).subscriptionToEvent <==> other in b.subscriptionToEvent)
    ensures forall x :: Gone(b, x) ==> Gone(Unsubscribed(b, id), x)
  {
    if id in b.subscriptionToEvent {
      var r := Unsubscribed(b, id);
      UnsubscribedLookupListed(b, id);
      UnsubscribedListedMapped(b, id);
      GoneIfUnmapped(r, id);
      forall x | Gone(b, x)
        ensures Gone(r, x)
      {
        GoneIfUnmapped(r, x);
      }
    } else {
      GoneIfUnmapped(b, id);
    }
  }

  /** First half of `UnsubscribedConsistent`: each id left in the lookup map
      is still listed under its event. */
  lemma UnsubscribedLookupListed(b: Bus, id: int)
    requires Consistent(b) && id in b.subscriptionToEvent
    ensures forall x :: x in Unsubscribed(b, id).subscriptionToEvent ==>
      var r := Unsubscribed(b, id);
      1 <= x < r.nextId && r.subscriptionToEvent[x] in r.subscriptions
      && HasId(r.subscriptions[r.subscriptionToEvent[x]], x)
  {
    var e := b.subscriptionToEvent[id];
    var r := Unsubscribed(b, id);
    forall x | x in r.subscriptionToEvent
      ensures 1 <= x < r.nextId && r.subscriptionToEvent[x] in r.subscriptions
              && HasId(r.subscriptions[r.subscriptionToEvent[x]], x)
    {
      var f := b.subscriptionToEvent[x];
      var i :| 0 <= i < |b.subscriptions[f]| && b.subscriptions[f][i].id == x;
      if f == e {
        assert b.subscriptions[f][i] in r.subscriptions[f];
      }
    }
  }

  /** Second half: each listed subscription is still in the lookup map. */
  lemma UnsubscribedListedMapped(b: Bus, id: int)
    requires Consistent(b) && id in b.subscriptionToEvent
    ensures forall f, i :: f in Unsubscribed(b, id).subscriptions && 0 <= i < |Unsubscribed(b, id).subscriptions[f]| ==>
      var r := Unsubscribed(b, id);
      r.subscriptions[f][i].id in r.subscriptionToEvent
      && r.subscriptionToEvent[r.subscriptions[f][i].id] == f
    ensures forall f :: f in Unsubscribed(b, id).subscriptions ==> Increasing(Unsubscribed(b, id).subscriptions[f])
  {
    var e := b.subscriptionToEvent[id];
    var r := Unsubscribed(b, id);
    forall f, i | f in r.subscriptions && 0 <= i < |r.subscriptions[f]|
      ensures r.subscriptions[f][i].id in r.subscriptionToEvent
              && r.subscriptionToEvent[r.subscriptions[f][i].id] == f
    {
      if f == e {
        var s := r.subscriptions[f][i];
        assert s in r.subscriptions[f];
        assert s in b.subscriptions[f];
        var j :| 0 <= j < |b.subscriptions[f]| && b.subscriptions[f][j] == s;
      }
    }
  }

  /** Under the invariant an id missing from the lookup map is in no list. */
  lemma GoneIfUnmapped(b: Bus, x: int)
    requires Consistent(b) && x !in b.subscriptionToEvent
    ensures Gone(b, x)
  {
    forall f, i | f in b.subscriptions && 0 <= i < |b.subscriptions[f]|
      ensures b.subscriptions[f][i].id != x
    {
    }
  }

  /** `EventSystem::UnsubscribeAll` (EventSystem.cpp:107-117). */
  function UnsubscribedAll(b: Bus, e: string): (r: Bus)
    ensures r.nextId == b.nextId
    ensures e !in r.subscriptions
    ensures forall f :: f != e ==> ListOf(r, f) == ListOf(b, f)
    ensures forall id :: id in r.subscriptionToEvent ==> id in b.subscriptionToEvent
  {
    if e !in b.subscriptions then b
    else Bus(b.subscriptions - {e}, b.subscriptionToEvent - IdSet(b.subscriptions[e]), b.nextId)
  }

  /** Dropping an event keeps the maps in agreement, removes every id it had
      and no other. */
  lemma UnsubscribedAllConsistent(b: Bus, e: string)
    requires Consistent(b)
    ensures Consistent(UnsubscribedAll(b, e))
    ensures e !in UnsubscribedAll(b, e).subscriptions
    ensures forall id :: id in UnsubscribedAll(b, e).subscriptionToEvent <==>
      id in b.subscriptionToEvent && b.subscriptionToEvent[id] != e
  {
    if e in b.subscriptions {
      var r := UnsubscribedAll(b, e);
      forall id | id in b.subscriptionToEvent
        ensures id in IdSet(b.subscriptions[e]) <==> b.subscriptionToEvent[id] == e
      {
        if id in IdSet(b.subscriptions[e]) {
          var i :| 0 <= i < |b.subscriptions[e]| && b.subscriptions[e][i].id == id;
        }
        if b.subscriptionToEvent[id] == e {
          var i :| 0 <= i < |b.subscriptions[e]| && b.subscriptions[e][i].id == id;
        }
      }
      forall f, i | f in r.subscriptions && 0 <= i < |r.subscriptions[f]|
        ensures r.subscriptions[f][i].id in r.subscriptionToEvent
      {
        assert b.subscriptionToEvent[b.subscriptions[f][i].id] == f;
      }
    }
  }

  /** The ids of the once-subscriptions of a list, in order: the `to_remove`
      of `Emit`. */
  function OnceIds(subs: seq<Subscription>): seq<int>
    decreases |subs|
  {
    if |subs| == 0 then []
    else OnceIds(subs[..|subs| - 1]) + (if subs[|subs| - 1].once then [subs[|subs| - 1].id] else [])
  }

  lemma {:induction false} OnceIdsOf(subs: seq<Subscription>, id: int)
    ensures id in OnceIds(subs) <==> exists i :: 0 <= i < |subs| && subs[i].id == id && subs[i].once
    decreases |subs|
  {
    if |subs| > 0 {
      var init := subs[..|subs| - 1];
      OnceIdsOf(init, id);
      if exists i :: 0 <= i < |subs| && subs[i].id == id && subs[i].once {
        var i :| 0 <= i < |subs| && subs[i].id == id && subs[i].once;
        if i < |init| {
          assert init[i] == subs[i];
        }
      }
      if exists i :: 0 <= i < |init| && init[i].id == id && init[i].once {
        var i :| 0 <= i < |init| && init[i].id == id && init[i].once;
        assert subs[i] == init[i];
      }
    }
  }

  /** The ids of a list, in order: who `Emit` calls. */
  function Ids(subs: seq<Subscription>): seq<int>
    decreases |subs|
  {
    if |subs| == 0 then [] else Ids(subs[..|subs| - 1]) + [subs[|subs| - 1].id]
  }

  /** `Unsubscribe` for each id in turn (the loop of EventSystem.cpp:43-45). */
  function UnsubscribedEach(b: Bus, ids: seq<int>): (r: Bus)
    ensures r.nextId == b.nextId
    ensures forall id :: id in r.subscriptionToEvent ==> id in b.subscriptionToEvent && id !in ids
    decreases |ids|
  {
    if |ids| == 0 then b else UnsubscribedEach(Unsubscribed(b, ids[0]), ids[1..])
  }

  lemma {:induction false} UnsubscribedEachConsistent(b: Bus, ids: seq<int>)
    requires Consistent(b)
    ensures Consistent(UnsubscribedEach(b, ids))
    ensures forall id :: id in ids ==> Gone(UnsubscribedEach(b, ids), id)
    ensures forall id :: id !in ids ==>
      (id in UnsubscribedEach(b, ids).subscriptionToEvent <==> id in b.subscriptionToEvent)
    decreases |ids|
  {
    if |ids| > 0 {
      UnsubscribedConsistent(b, ids[0]);
      var b1 := Unsubscribed(b, ids[0]);
      UnsubscribedEachConsistent(b1, ids[1..]);
      GoneStaysGone(b1, ids[1..], ids[0]);
    }
  }

  lemma {:induction false} GoneStaysGone(b: Bus, ids: seq<int>, x: int)
    requires Consistent(b) && Gone(b, x)
    ensures Gone(UnsubscribedEach(b, ids), x)
    decreases |ids|
  {
    if |ids| > 0 {
      UnsubscribedConsistent(b, ids[0]);
      GoneStaysGone(Unsubscribed(b, ids[0]), ids[1..], x);
    }
  }

  /** `EventSystem::Emit` when no callback calls back into the bus: every
      once-subscription of the event is removed. */
  function Emitted(b: Bus, e: string): (r: Bus)
    ensures r.nextId == b.nextId
    ensures forall id :: id in r.subscriptionToEvent ==> id in b.subscriptionToEvent
    ensures e in b.subscriptions ==> forall i :: 0 <= i < |b.subscriptions[e]| && b.subscriptions[e][i].once ==>
      b.subscriptions[e][i].id !in r.subscriptionToEvent
  {
    if e !in b.subscriptions then b
    else
      OnceIdsCover(b.subscriptions[e]);
      UnsubscribedEach(b, OnceIds(b.subscriptions[e]))
  }

  lemma OnceIdsCover(subs: seq<Subscription>)
    ensures forall i :: 0 <= i < |subs| && subs[i].once ==> subs[i].id in OnceIds(subs)
  {
    forall i | 0 <= i < |subs| && subs[i].once
      ensures subs[i].id in OnceIds(subs)
    {
      OnceIdsOf(subs, subs[i].id);
    }
  }

  /** After such an `Emit` the once-subscriptions of the event are gone and
      every other subscription, of this event or any other, is still there. */
  lemma EmitDropsOnce(b: Bus, e: string)
    requires Consistent(b)
    ensures Consistent(Emitted(b, e))
    ensures e !in b.subscriptions ==> Emitted(b, e) == b
    ensures e in b.subscriptions ==> forall i :: 0 <= i < |b.subscriptions[e]| ==>
      var s := b.subscriptions[e][i];
      (s.once ==> Gone(Emitted(b, e), s.id)) && (!s.once ==> s.id in Emitted(b, e).subscriptionToEvent)
    ensures forall id :: id in b.subscriptionToEvent && b.subscriptionToEvent[id] != e ==>
      id in Emitted(b, e).subscriptionToEvent
  {
    if e in b.subscriptions {
      var subs := b.subscriptions[e];
      UnsubscribedEachConsistent(b, OnceIds(subs));
      forall i | 0 <= i < |subs|
        ensures subs[i].once <==> subs[i].id in OnceIds(subs)
      {
        OnceIdsOf(subs, subs[i].id);
        if subs[i].id in OnceIds(subs) {
          var j :| 0 <= j < |subs| && subs[j].id == subs[i].id && subs[j].once;
        }
      }
      forall id | id in b.subscriptionToEvent && b.subscriptionToEvent[id] != e
        ensures id !in OnceIds(subs)
      {
        OnceIdsOf(subs, id);
        forall j | 0 <= j < |subs|
          ensures subs[j].id != id
        {
        }
      }
    }
  }

  /** What a callback does to the bus while `Emit` runs. */
  datatype Op =
    | DoSubscribe(event: string, once: bool, isFunction: bool)
    | DoUnsubscribe(id: int)
    | DoUnsubscribeAll(event: string)
    | DoClear

  /** The bus (the static members of `EventSystem`). */
  class EventSystem {
    var subscriptions: map<string, seq<Subscription>>
    var subscriptionToEvent: map<int, string>
    var nextSubscriptionId: int

    function State(): Bus
      reads this
    {
      Bus(subscriptions, subscriptionToEvent, nextSubscriptionId)
    }

    ghost predicate Valid()
      reads this
    {
      Consistent(State())
    }

    /** The static initialisers of EventSystem.hpp. */
    constructor ()
      ensures Valid() && State() == Cleared(1)
    {
      subscriptions := map[];
      subscriptionToEvent := map[];
      nextSubscriptionId := 1;
    }

    /** `EventSystem::Init`. */
    method Init()
      modifies this
      ensures Valid() && State() == Cleared(1)
    {
      subscriptions := map[];
      subscriptionToEvent := map[];
      nextSubscriptionId := 1;
    }

    /** `EventSystem::Subscribe`; `isFunction` says whether the callback is
        a Lua function.  Anything else is refused with id 0. */
    method Subscribe(eventName: string, isFunction: bool) returns (id: int)
      requires Valid()
      modifies this
      ensures Valid()
      ensures !isFunction ==> id == 0 && State() == old(State())
      ensures isFunction ==> id == old(nextSubscriptionId) && State() == Subscribed(old(State()), eventName, false)
    {
      id := AddSubscription(eventName, isFunction, false);
    }

    /** `EventSystem::SubscribeOnce`. */
    method SubscribeOnce(eventName: string, isFunction: bool) returns (id: int)
      requires Valid()
      modifies this
      ensures Valid()
      ensures !isFunction ==> id == 0 && State() == old(State())
      ensures isFunction ==> id == old(nextSubscriptionId) && State() == Subscribed(old(State()), eventName, true)
    {
      id := AddSubscription(eventName, isFunction, true);
    }

    /** The common body of the two subscribing calls. */
    method AddSubscription(eventName: string, isFunction: bool, once: bool) returns (id: int)
      requires Valid()
      modifies this
      ensures Valid()
      ensures !isFunction ==> id == 0 && State() == old(State())
      ensures isFunction ==> id == old(nextSubscriptionId) && State() == Subscribed(old(State()), eventName, once)
    {
      if !isFunction {
        return 0;
      }
      SubscribedConsistent(State(), eventName, once);
      id := nextSubscriptionId;
      nextSubscriptionId := nextSubscriptionId + 1;
      var list := if eventName in subscriptions then subscriptions[eventName] else [];
      subscriptions := subscriptions[eventName := list + [Subscription(id, once)]];
      subscriptionToEvent := subscriptionToEvent[id := eventName];
    }

    /** `EventSystem::Unsubscribe`. */
    method Unsubscribe(subscriptionId: int)
      requires Valid()
      modifies this
      ensures Valid()
      ensures State() == Unsubscribed(old(State()), subscriptionId)
    {
      UnsubscribedConsistent(State(), subscriptionId);
      if subscriptionId !in subscriptionToEvent {
        return;
      }
      var eventName := subscriptionToEvent[subscriptionId];
      if eventName in subscriptions {
        subscriptions := subscriptions[eventName := RemoveId(subscriptions[eventName], subscriptionId)];
      }
      subscriptionToEvent := subscriptionToEvent - {subscriptionId};
    }

    /** `EventSystem::UnsubscribeAll`: the loop erases the event's ids from
        the lookup map one by one, then the event goes. */
    method UnsubscribeAll(eventName: string)
      requires Valid()
      modifies this
      ensures Valid()
      ensures State() == UnsubscribedAll(old(State()), eventName)
    {
      UnsubscribedAllConsistent(State(), eventName);
      if eventName !in subscriptions {
        return;
      }
      var subs := subscriptions[eventName];
      var i := 0;
      while i < |subs|
        invariant 0 <= i <= |subs|
        invariant subscriptions == old(subscriptions) && nextSubscriptionId == old(nextSubscriptionId)
        invariant subscriptionToEvent == old(subscriptionToEvent) - IdSet(subs[..i])
      {
        assert IdSet(subs[..i + 1]) == IdSet(subs[..i]) + {subs[i].id} by {
          assert forall k :: 0 <= k < i ==> subs[..i + 1][k] == subs[..i][k];
          assert subs[..i + 1][i] == subs[i];
        }
        subscriptionToEvent := subscriptionToEvent - {subs[i].id};
        i := i + 1;
      }
      assert subs[..i] == subs;
      subscriptions := subscriptions - {eventName};
    }

    /** `EventSystem::Clear`: both maps emptied, the counter kept. */
    method Clear()
      requires Valid()
      modifies this
      ensures Valid() && State() == Cleared(old(nextSubscriptionId))
    {
      subscriptions := map[];
      subscriptionToEvent := map[];
    }

    /** One thing a callback does. */
    method Apply(op: Op)
      requires Valid()
      modifies this
      ensures Valid()
    {
      match op
      case DoSubscribe(e, once, f) =>
        var _ := AddSubscription(e, f, once);
      case DoUnsubscribe(id) =>
        Unsubscribe(id);
      case DoUnsubscribeAll(e) =>
        UnsubscribeAll(e);
      case DoClear =>
        Clear();
    }

    /** `EventSystem::Emit`: `reactions[k]` is what the `k`-th callback
        called does to the bus (nothing when the list is shorter).  Returns
        the ids of the subscriptions whose callbacks were called, in order:
        exactly the event's list as it was when `Emit` began, whatever the
        callbacks subscribe or unsubscribe.  Afterwards each once-subscription
        of that list is gone. */
    method Emit(eventName: string, reactions: seq<seq<Op>>) returns (called: seq<int>)
      requires Valid()
      modifies this
      ensures Valid()
      ensures called == Ids(ListOf(old(State()), eventName))
      ensures eventName !in old(subscriptions) ==> State() == old(State())
      ensures forall k :: 0 <= k < |ListOf(old(State()), eventName)| && ListOf(old(State()), eventName)[k].once
                ==> Gone(State(), ListOf(old(State()), eventName)[k].id)
      ensures (forall k :: 0 <= k < |reactions| ==> reactions[k] == []) ==>
                State() == Emitted(old(State()), eventName)
    {
      called := [];
      if eventName !in subscriptions {
        return;
      }
      var subsCopy := subscriptions[eventName];
      var toRemove;
      called, toRemove := CallEach(subsCopy, reactions);
      UnsubscribeEach(toRemove);
      forall m | 0 <= m < |subsCopy| && subsCopy[m].once
        ensures Gone(State(), subsCopy[m].id)
      {
        OnceIdsOf(subsCopy, subsCopy[m].id);
      }
    }

    /** The loop over the copy in `Emit` (EventSystem.cpp:28-40): each
        callback is called in turn and the once-subscriptions collected. */
    method CallEach(subsCopy: seq<Subscription>, reactions: seq<seq<Op>>)
      returns (called: seq<int>, toRemove: seq<int>)
      requires Valid()
      modifies this
      ensures Valid()
      ensures called == Ids(subsCopy) && toRemove == OnceIds(subsCopy)
      ensures (forall k :: 0 <= k < |reactions| ==> reactions[k] == []) ==> State() == old(State())
    {
      called, toRemove := [], [];
      ghost var quiet := forall k :: 0 <= k < |reactions| ==> reactions[k] == [];
      var i := 0;
      while i < |subsCopy|
        invariant 0 <= i <= |subsCopy| && Valid()
        invariant called == Ids(subsCopy[..i]) && toRemove == OnceIds(subsCopy[..i])
        invariant quiet ==> State() == old(State())
      {
        assert subsCopy[..i + 1][..i] == subsCopy[..i];
        var sub := subsCopy[i];
        called := called + [sub.id];
        if i < |reactions| {
          React(reactions[i]);
        }
        if sub.once {
          toRemove := toRemove + [sub.id];
        }
        i := i + 1;
      }
      assert subsCopy[..i] == subsCopy;
    }

    /** What one callback does to the bus, operation by operation. */
    method React(ops: seq<Op>)
      requires Valid()
      modifies this
      ensures Valid()
      ensures ops == [] ==> State() == old(State())
    {
      var j := 0;
      while j < |ops|
        invariant 0 <= j <= |ops| && Valid()
        invariant ops == [] ==> State() == old(State())
      {
        Apply(ops[j]);
        j := j + 1;
      }
    }

    /** The removal loop at the end of `Emit` (EventSystem.cpp:43-45). */
    method UnsubscribeEach(ids: seq<int>)
      requires Valid()
      modifies this
      ensures Valid()
      ensures State() == UnsubscribedEach(old(State()), ids)
      ensures forall id :: id in ids ==> Gone(State(), id)
    {
      ghost var before := State();
      var k := 0;
      while k < |ids|
        invariant 0 <= k <= |ids| && Valid()
        invariant State() == UnsubscribedEach(before, ids[..k])
      {
        Unsubscribe(ids[k]);
        UnsubscribedEachSnoc(before, ids[..k], ids[k]);
        assert ids[..k + 1] == ids[..k] + [ids[k]];
        k := k + 1;
      }
      assert ids[..k] == ids;
      UnsubscribedEachConsistent(before, ids);
    }
  }

  /** Unsubscribing one more id at the end of a run. */
  lemma {:induction false} UnsubscribedEachSnoc(b: Bus, ids: seq<int>, id: int)
    ensures UnsubscribedEach(b, ids + [id]) == Unsubscribed(UnsubscribedEach(b, ids), id)
    decreases |ids|
  {
    if |ids| > 0 {
      assert (ids + [id])[1..] == ids[1..] + [id];
      UnsubscribedEachSnoc(Unsubscribed(b, ids[0]), ids[1..], id);
    }
  }
}
