/** Tween bookkeeping (Tween.hpp / Tween.cpp): a list of running tweens,
    each with an id, a duration, the time elapsed so far, an easing curve and
    optional Lua callbacks.  `Update` advances every tween, reports the
    callbacks it makes, and drops the cancelled and the finished ones.  The
    source's `float`s are `real`s; the interpolated value handed to
    `on_update` is not modelled, only the fact that the callback is made.
    A callback is taken not to call back into the tween system during
    `Update`. */
module Tweens {

  /** `EaseType`. */
  datatype EaseType =
    | Linear
    | EaseInQuad
    | EaseOutQuad
    | EaseInOutQuad
    | EaseInCubic
    | EaseOutCubic
    | EaseInOutCubic
    | EaseInSine
    | EaseOutSine
    | EaseInOutSine

  /** `TweenInstance`; `onUpdate` and `onComplete` say whether a Lua
      function was given for that callback. */
  datatype TweenInstance = TweenInstance(
    id: int,
    startValue: real,
    endValue: real,
    duration: real,
    elapsed: real,
    easeType: EaseType,
    onUpdate: bool,
    onComplete: bool,
    cancelled: bool)

  /** A callback made by `Update`, naming the tween it belongs to. */
  datatype Event = UpdateCalled(id: int) | CompleteCalled(id: int)

  /** The enumerator names `ParseEaseType` recognises. */
  function EaseName(e: EaseType): string
  {
    match e
    case Linear => "Linear"
    case EaseInQuad => "EaseInQuad"
    case EaseOutQuad => "EaseOutQuad"
    case EaseInOutQuad => "EaseInOutQuad"
    case EaseInCubic => "EaseInCubic"
    case EaseOutCubic => "EaseOutCubic"
    case EaseInOutCubic => "EaseInOutCubic"
    case EaseInSine => "EaseInSine"
    case EaseOutSine => "EaseOutSine"
    case EaseInOutSine => "EaseInOutSine"
  }

  /** `Tween::ParseEaseType`: a recognised name gives its curve, any other
      name gives `Linear`. */
  function ParseEaseType(name: string): (e: EaseType)
    ensures e != Linear ==> name == EaseName(e)
  {
    if name == "Linear" then Linear
    else if name == "EaseInQuad" then EaseInQuad
    else if name == "EaseOutQuad" then EaseOutQuad
    else if name == "EaseInOutQuad" then EaseInOutQuad
    else if name == "EaseInCubic" then EaseInCubic
    else if name == "EaseOutCubic" then EaseOutCubic
    else if name == "EaseInOutCubic" then EaseInOutCubic
    else if name == "EaseInSine" then EaseInSine
    else if name == "EaseOutSine" then EaseOutSine
    else if name == "EaseInOutSine" then EaseInOutSine
    else Linear
  }

  /** Every curve's own name parses back to it. */
  lemma ParseEaseName(e: EaseType)
    ensures ParseEaseType(EaseName(e)) == e
  {
  }

  /** A name that is no curve's name parses to `Linear`. */
  lemma ParseUnknownName(name: string)
    requires forall k: EaseType :: name != EaseName(k)
    ensures ParseEaseType(name) == Linear
  {
    assert name != EaseName(EaseInQuad) && name != EaseName(EaseOutQuad) && name != EaseName(EaseInOutQuad);
    assert name != EaseName(EaseInCubic) && name != EaseName(EaseOutCubic) && name != EaseName(EaseInOutCubic);
    assert name != EaseName(EaseInSine) && name != EaseName(EaseOutSine) && name != EaseName(EaseInOutSine);
  }

  predicate IsSine(e: EaseType)
  {
    e == EaseInSine || e == EaseOutSine || e == EaseInOutSine
  }

  /** `Tween::ApplyEasing` for the polynomial curves: each starts at 0,
      ends at 1 and stays within [0, 1] in between. */
  function ApplyEasing(t: real, e: EaseType): (r: real)
    requires !IsSine(e)
    ensures t == 0.0 ==> r == 0.0
    ensures t == 1.0 ==> r == 1.0
    ensures 0.0 <= t <= 1.0 ==> 0.0 <= r <= 1.0
  {
    CurvesInUnit(t);
    match e
    case Linear => t
    case EaseInQuad => t * t
    case EaseOutQuad => t * (2.0 - t)
    case EaseInOutQuad => if t < 0.5 then 2.0 * t * t else -1.0 + (4.0 - 2.0 * t) * t
    case EaseInCubic => t * t * t
    case EaseOutCubic => (t - 1.0) * (t - 1.0) * (t - 1.0) + 1.0
    case EaseInOutCubic => if t < 0.5 then 4.0 * t * t * t else (t - 1.0) * (2.0 * t - 2.0) * (2.0 * t - 2.0) + 1.0
  }

  /** The bounds of each polynomial on [0, 1]. */
  lemma CurvesInUnit(t: real)
    ensures 0.0 <= t <= 1.0 ==> 0.0 <= t * t <= 1.0 && 0.0 <= t * t * t <= 1.0
    ensures 0.0 <= t <= 1.0 ==> 0.0 <= t * (2.0 - t) <= 1.0
    ensures 0.0 <= t <= 1.0 ==> 0.0 <= (t - 1.0) * (t - 1.0) * (t - 1.0) + 1.0 <= 1.0
    ensures 0.0 <= t < 0.5 ==> 0.0 <= 2.0 * t * t <= 1.0 && 0.0 <= 4.0 * t * t * t <= 1.0
    ensures 0.5 <= t <= 1.0 ==> 0.0 <= -1.0 + (4.0 - 2.0 * t) * t <= 1.0
    ensures 0.5 <= t <= 1.0 ==> 0.0 <= (t - 1.0) * (2.0 * t - 2.0) * (2.0 * t - 2.0) + 1.0 <= 1.0
  {
    if 0.0 <= t <= 1.0 {
      var u := 1.0 - t;
      assert 0.0 <= t * t <= t;
      assert 0.0 <= u * u <= u;
      assert 0.0 <= t * t * t <= t * t;
      assert 0.0 <= u * u * u <= u * u;
      assert t * (2.0 - t) == 1.0 - u * u;
      assert (t - 1.0) * (t - 1.0) * (t - 1.0) + 1.0 == 1.0 - u * u * u;
      if t >= 0.5 {
        assert u <= 0.5 && u * u <= 0.5 * u && u * u * u <= 0.5 * u * u;
        assert -1.0 + (4.0 - 2.0 * t) * t == 1.0 - 2.0 * u * u;
        assert (t - 1.0) * (2.0 * t - 2.0) * (2.0 * t - 2.0) + 1.0 == 1.0 - 4.0 * u * u * u;
      } else {
        assert t * t * t <= 0.25 * t;
      }
    }
  }

  /** Each ease-out curve is its ease-in curve turned about the centre of the
      unit square, and each ease-in-out curve is symmetric about that centre. */
  lemma EaseOutMirrorsEaseIn(t: real)
    ensures ApplyEasing(t, EaseOutQuad) == 1.0 - ApplyEasing(1.0 - t, EaseInQuad)
    ensures ApplyEasing(t, EaseOutCubic) == 1.0 - ApplyEasing(1.0 - t, EaseInCubic)
    ensures ApplyEasing(1.0 - t, EaseInOutQuad) == 1.0 - ApplyEasing(t, EaseInOutQuad)
    ensures ApplyEasing(1.0 - t, EaseInOutCubic) == 1.0 - ApplyEasing(t, EaseInOutCubic)
  {
    var u := 1.0 - t;
    assert (t - 1.0) * (t - 1.0) * (t - 1.0) == -(u * u * u);
    if t < 0.5 {
      assert u > 0.5;
      assert (u - 1.0) * (2.0 * u - 2.0) * (2.0 * u - 2.0) == -(4.0 * t * t * t);
    } else if t > 0.5 {
      assert u < 0.5;
      assert (t - 1.0) * (2.0 * t - 2.0) * (2.0 * t - 2.0) == -(4.0 * u * u * u);
    }
  }

  /** Whether a tween is done, the test `t >= 1.0f` of `Tween::Update`,
      stated without the division: for a non-zero duration it is the test
      that the quotient reaches 1; a zero duration divides to +infinity once
      time has passed (and to NaN or -infinity otherwise, which never compare
      as done). */
  predicate Finished(elapsed: real, duration: real)
    ensures duration != 0.0 ==> (Finished(elapsed, duration) <==> elapsed / duration >= 1.0)
  {
    QuotientReachesOne(elapsed, duration);
    if duration > 0.0 then elapsed >= duration
    else if duration < 0.0 then elapsed <= duration
    else elapsed > 0.0
  }

  lemma QuotientReachesOne(elapsed: real, duration: real)
    ensures duration > 0.0 ==> (elapsed / duration >= 1.0 <==> elapsed >= duration)
    ensures duration < 0.0 ==> (elapsed / duration >= 1.0 <==> elapsed <= duration)
  {
    if duration != 0.0 {
      var q := elapsed / duration;
      assert elapsed == q * duration;
      if duration > 0.0 {
        if q >= 1.0 {
          assert q * duration >= duration;
        } else {
          assert q * duration < duration;
        }
      } else {
        if q >= 1.0 {
          assert q * duration <= duration;
        } else {
          assert q * duration > duration;
        }
      }
    }
  }

  /** The normalised time of a tween with a positive duration. */
  function Progress(elapsed: real, duration: real): (t: real)
    requires duration > 0.0
    ensures t <= 1.0
    ensures elapsed >= 0.0 ==> 0.0 <= t
    ensures t == 1.0 <==> Finished(elapsed, duration)
  {
    if elapsed / duration < 1.0 then elapsed / duration else 1.0
  }

  /** One frame of a tween that is not cancelled. */
  function Advance(tw: TweenInstance, dt: real): TweenInstance
  {
    tw.(elapsed := tw.elapsed + dt)
  }

  /** Whether `Update` puts the tween's id on its removal list. */
  predicate Removed(tw: TweenInstance, dt: real)
  {
    tw.cancelled || Finished(tw.elapsed + dt, tw.duration)
  }

  /** The callbacks `Update` makes for one tween. */
  function Calls(tw: TweenInstance, dt: real): seq<Event>
  {
    if tw.cancelled then []
    else (if tw.onUpdate then [UpdateCalled(tw.id)] else [])
         + (if Finished(tw.elapsed + dt, tw.duration) && tw.onComplete then [CompleteCalled(tw.id)] else [])
  }

  /** What the first loop of `Update` leaves: the list with every tween that
      is not cancelled advanced, the ids to remove, and the callbacks made. */
  datatype Pass = Pass(updated: seq<TweenInstance>, toRemove: seq<int>, events: seq<Event>)

  /** The first loop of `Tween::Update` (Tween.cpp:25-59) over `ts`. */
  function FirstPass(ts: seq<TweenInstance>, dt: real): (p: Pass)
    ensures |p.updated| == |ts|
    ensures |p.toRemove| <= |ts| && |p.events| <= 2 * |ts|
    decreases |ts|
  {
    if |ts| == 0 then Pass([], [], [])
    else
      var p := FirstPass(ts[..|ts| - 1], dt);
      var tw := ts[|ts| - 1];
      Pass(p.updated + [AfterPass(tw, dt)],
           p.toRemove + (if Removed(tw, dt) then [tw.id] else []),
           p.events + Calls(tw, dt))
  }

  /** A tween after the first loop of `Update`. */
  function AfterPass(tw: TweenInstance, dt: real): TweenInstance
  {
    if tw.cancelled then tw else Advance(tw, dt)
  }

  /** The first loop over one more tween. */
  lemma FirstPassStep(ts: seq<TweenInstance>, i: nat, dt: real)
    requires i < |ts|
    ensures FirstPass(ts[..i + 1], dt).toRemove
            == FirstPass(ts[..i], dt).toRemove + (if Removed(ts[i], dt) then [ts[i].id] else [])
    ensures FirstPass(ts[..i + 1], dt).events == FirstPass(ts[..i], dt).events + Calls(ts[i], dt)
  {
    assert ts[..i + 1][..i] == ts[..i];
  }

  /** The `remove_if` of `Tween::Update`: drop every tween whose id is listed. */
  function RemoveIds(ts: seq<TweenInstance>, ids: seq<int>): seq<TweenInstance>
    decreases |ts|
  {
    if |ts| == 0 then []
    else RemoveIds(ts[..|ts| - 1], ids) + (if ts[|ts| - 1].id in ids then [] else [ts[|ts| - 1]])
  }

  /** The tween list after `Tween::Update`. */
  function UpdateTweens(ts: seq<TweenInstance>, dt: real): (r: seq<TweenInstance>)
    ensures forall tw :: tw in r ==> exists i :: 0 <= i < |ts| && tw == Advance(ts[i], dt) && !Removed(ts[i], dt)
  {
    UpdateTweensFromList(ts, dt);
    RemoveIds(FirstPass(ts, dt).updated, FirstPass(ts, dt).toRemove)
  }

  /** `remove_if` keeps exactly the tweens whose ids are not listed. */
  lemma {:induction false} RemoveIdsMembers(ts: seq<TweenInstance>, ids: seq<int>, tw: TweenInstance)
    ensures tw in RemoveIds(ts, ids) <==> tw in ts && tw.id !in ids
    decreases |ts|
  {
    if |ts| > 0 {
      RemoveIdsMembers(ts[..|ts| - 1], ids, tw);
      assert ts == ts[..|ts| - 1] + [ts[|ts| - 1]];
    }
  }

  lemma UpdateTweensFromList(ts: seq<TweenInstance>, dt: real)
    ensures forall tw :: tw in RemoveIds(FirstPass(ts, dt).updated, FirstPass(ts, dt).toRemove) ==>
        exists i :: 0 <= i < |ts| && tw == Advance(ts[i], dt) && !Removed(ts[i], dt)
  {
    var p := FirstPass(ts, dt);
    FirstPassUpdated(ts, dt);
    forall tw | tw in RemoveIds(p.updated, p.toRemove)
      ensures exists i :: 0 <= i < |ts| && tw == Advance(ts[i], dt) && !Removed(ts[i], dt)
    {
      RemoveIdsMembers(p.updated, p.toRemove, tw);
      var i :| 0 <= i < |p.updated| && p.updated[i] == tw;
      FirstPassRemoves(ts, dt, tw.id);
      assert ts[i].id == tw.id;
    }
  }

  /** The survivors of one `Update`, stated directly: each tween that is
      neither cancelled nor finished after this frame, advanced, in order. */
  function Survivors(ts: seq<TweenInstance>, dt: real): (r: seq<TweenInstance>)
    ensures |r| <= |ts|
    ensures forall tw :: tw in r ==> !tw.cancelled
    decreases |ts|
  {
    if |ts| == 0 then []
    else Survivors(ts[..|ts| - 1], dt)
         + (if Removed(ts[|ts| - 1], dt) then [] else [Advance(ts[|ts| - 1], dt)])
  }

  /** Ids strictly increase along the list (they are handed out by a
      counter and `To` appends). */
  ghost predicate IncreasingIds(ts: seq<TweenInstance>)
  {
    forall i, j :: 0 <= i < j < |ts| ==> ts[i].id < ts[j].id
  }

  /** The first loop keeps every tween in place, advancing the ones that are
      not cancelled. */
  lemma {:induction false} FirstPassUpdated(ts: seq<TweenInstance>, dt: real)
    ensures |FirstPass(ts, dt).updated| == |ts|
    ensures forall i :: 0 <= i < |ts| ==>
      FirstPass(ts, dt).updated[i] == AfterPass(ts[i], dt)
    decreases |ts|
  {
    if |ts| > 0 {
      FirstPassUpdated(ts[..|ts| - 1], dt);
    }
  }

  /** An id is put on the removal list exactly when a tween with that id is
      cancelled or finishes this frame. */
  lemma {:induction false} FirstPassRemoves(ts: seq<TweenInstance>, dt: real, id: int)
    ensures id in FirstPass(ts, dt).toRemove <==>
      exists i :: 0 <= i < |ts| && ts[i].id == id && Removed(ts[i], dt)
    decreases |ts|
  {
    if |ts| > 0 {
      var init := ts[..|ts| - 1];
      FirstPassRemoves(init, dt, id);
      if exists i :: 0 <= i < |ts| && ts[i].id == id && Removed(ts[i], dt) {
        var i :| 0 <= i < |ts| && ts[i].id == id && Removed(ts[i], dt);
        if i < |ts| - 1 {
          assert init[i] == ts[i];
        }
      }
      if exists i :: 0 <= i < |init| && init[i].id == id && Removed(init[i], dt) {
        var i :| 0 <= i < |init| && init[i].id == id && Removed(init[i], dt);
        assert ts[i] == init[i];
      }
    }
  }

  /** With distinct ids, `Update` keeps exactly the tweens that are neither
      cancelled nor finished, advanced and in their old order. */
  lemma UpdateKeepsSurvivors(ts: seq<TweenInstance>, dt: real)
    requires IncreasingIds(ts)
    ensures UpdateTweens(ts, dt) == Survivors(ts, dt)
  {
    var p := FirstPass(ts, dt);
    FirstPassUpdated(ts, dt);
    forall i | 0 <= i < |ts|
      ensures ts[i].id in p.toRemove <==> Removed(ts[i], dt)
    {
      FirstPassRemoves(ts, dt, ts[i].id);
    }
    RemovePrefix(ts, dt, p.updated, p.toRemove, |ts|);
    assert p.updated[..|ts|] == p.updated;
    assert ts[..|ts|] == ts;
  }

  lemma {:induction false} RemovePrefix(ts: seq<TweenInstance>, dt: real, us: seq<TweenInstance>,
                                        ids: seq<int>, k: nat)
    requires k <= |ts| == |us|
    requires forall i :: 0 <= i < |ts| ==> us[i] == AfterPass(ts[i], dt)
    requires forall i :: 0 <= i < |ts| ==> (ts[i].id in ids <==> Removed(ts[i], dt))
    ensures RemoveIds(us[..k], ids) == Survivors(ts[..k], dt)
    decreases k
  {
    if k > 0 {
      RemovePrefix(ts, dt, us, ids, k - 1);
      assert us[..k][..k - 1] == us[..k - 1];
      assert ts[..k][..k - 1] == ts[..k - 1];
      assert us[k - 1].id == ts[k - 1].id;
    }
  }

  /** Every survivor is a tween of the old list, advanced by `dt`. */
  lemma {:induction false} SurvivorsFromList(ts: seq<TweenInstance>, dt: real)
    ensures forall s :: s in Survivors(ts, dt) ==>
      exists i :: 0 <= i < |ts| && s == Advance(ts[i], dt) && !Removed(ts[i], dt)
    decreases |ts|
  {
    if |ts| > 0 {
      var init := ts[..|ts| - 1];
      SurvivorsFromList(init, dt);
      forall s | s in Survivors(ts, dt)
        ensures exists i :: 0 <= i < |ts| && s == Advance(ts[i], dt) && !Removed(ts[i], dt)
      {
        if s in Survivors(init, dt) {
          var i :| 0 <= i < |init| && s == Advance(init[i], dt) && !Removed(init[i], dt);
          assert ts[i] == init[i];
        } else {
          assert s == Advance(ts[|ts| - 1], dt);
        }
      }
    }
  }

  /** No cancelled tween and no finished tween survives an `Update`. */
  lemma SurvivorsNotDone(ts: seq<TweenInstance>, dt: real)
    ensures forall s :: s in Survivors(ts, dt) ==> !s.cancelled && !Finished(s.elapsed, s.duration)
  {
    SurvivorsFromList(ts, dt);
  }

  /** The survivors keep increasing ids. */
  lemma {:induction false} SurvivorsIncreasing(ts: seq<TweenInstance>, dt: real)
    requires IncreasingIds(ts)
    ensures IncreasingIds(Survivors(ts, dt))
    decreases |ts|
  {
    if |ts| > 0 {
      var init := ts[..|ts| - 1];
      SurvivorsIncreasing(init, dt);
      SurvivorsFromList(init, dt);
      var s := Survivors(init, dt);
      forall x | x in s
        ensures x.id < ts[|ts| - 1].id
      {
        var i :| 0 <= i < |init| && x == Advance(init[i], dt) && !Removed(init[i], dt);
        assert init[i] == ts[i];
      }
      forall i, j | 0 <= i < j < |Survivors(ts, dt)|
        ensures Survivors(ts, dt)[i].id < Survivors(ts, dt)[j].id
      {
        if j >= |s| {
          assert Survivors(ts, dt)[i] == s[i];
          assert s[i] in s;
        } else {
          assert Survivors(ts, dt)[i] == s[i] && Survivors(ts, dt)[j] == s[j];
        }
      }
    }
  }

  /** Whether `Update` calls the tween's `on_complete` this frame. */
  predicate CompletesNow(tw: TweenInstance, dt: real)
  {
    !tw.cancelled && tw.onComplete && Finished(tw.elapsed + dt, tw.duration)
  }

  /** `on_complete` is called for a tween exactly when it is not cancelled,
      finishes this frame and has a callback. */
  lemma {:induction false} CompleteCalls(ts: seq<TweenInstance>, dt: real, id: int)
    ensures CompleteCalled(id) in FirstPass(ts, dt).events <==>
      exists i :: 0 <= i < |ts| && ts[i].id == id && CompletesNow(ts[i], dt)
    decreases |ts|
  {
    if |ts| > 0 {
      var init := ts[..|ts| - 1];
      var last := ts[|ts| - 1];
      CompleteCalls(init, dt, id);
      assert FirstPass(ts, dt).events == FirstPass(init, dt).events + Calls(last, dt);
      assert CompleteCalled(id) in Calls(last, dt) <==> last.id == id && CompletesNow(last, dt);
      if exists i :: 0 <= i < |init| && init[i].id == id && CompletesNow(init[i], dt) {
        var i :| 0 <= i < |init| && init[i].id == id && CompletesNow(init[i], dt);
        assert ts[i] == init[i];
      }
      if exists i :: 0 <= i < |ts| && ts[i].id == id && CompletesNow(ts[i], dt) {
        var i :| 0 <= i < |ts| && ts[i].id == id && CompletesNow(ts[i], dt);
        if i < |init| {
          assert ts[i] == init[i];
        }
      }
    }
  }

  /** `on_update` is called for every tween that is not cancelled and has
      that callback, so a cancelled tween gets no callback at all. */
  lemma {:induction false} UpdateCalls(ts: seq<TweenInstance>, dt: real, id: int)
    ensures UpdateCalled(id) in FirstPass(ts, dt).events <==>
      exists i :: 0 <= i < |ts| && ts[i].id == id && !ts[i].cancelled && ts[i].onUpdate
    decreases |ts|
  {
    if |ts| > 0 {
      var init := ts[..|ts| - 1];
      var last := ts[|ts| - 1];
      UpdateCalls(init, dt, id);
      assert FirstPass(ts, dt).events == FirstPass(init, dt).events + Calls(last, dt);
      assert UpdateCalled(id) in Calls(last, dt) <==> last.id == id && !last.cancelled && last.onUpdate;
      forall i | 0 <= i < |init|
        ensures ts[i] == init[i]
      {
      }
    }
  }

  /** The tween `To` appends. */
  function NewTween(id: int, from: real, to: real, duration: real, easeName: string,
                    hasUpdate: bool, hasComplete: bool): (tw: TweenInstance)
    ensures tw.id == id && tw.elapsed == 0.0 && !tw.cancelled
    ensures tw.easeType == ParseEaseType(easeName)
  {
    TweenInstance(id, from, to, duration, 0.0, ParseEaseType(easeName), hasUpdate, hasComplete, false)
  }

  /** The index of the first tween with the id, or -1. */
  function IndexOf(ts: seq<TweenInstance>, id: int): (k: int)
    ensures -1 <= k < |ts|
    ensures k == -1 <==> forall i :: 0 <= i < |ts| ==> ts[i].id != id
    ensures k >= 0 ==> ts[k].id == id && forall i :: 0 <= i < k ==> ts[i].id != id
    decreases |ts|
  {
    if |ts| == 0 then -1
    else if ts[0].id == id then 0
    else
      var k := IndexOf(ts[1..], id);
      if k == -1 then -1 else k + 1
  }

  /** `Tween::Cancel` on a list: the first tween with the id is flagged. */
  function CancelIn(ts: seq<TweenInstance>, id: int): (r: seq<TweenInstance>)
    ensures |r| == |ts|
    ensures forall i :: 0 <= i < |ts| ==> r[i].id == ts[i].id && (ts[i].cancelled ==> r[i].cancelled)
  {
    var k := IndexOf(ts, id);
    if k == -1 then ts else ts[k := ts[k].(cancelled := true)]
  }

  /** Cancelling changes only the `cancelled` flag of the first matching
      tween; an unknown id changes nothing. */
  lemma CancelEffect(ts: seq<TweenInstance>, id: int)
    ensures |CancelIn(ts, id)| == |ts|
    ensures forall i :: 0 <= i < |ts| ==> CancelIn(ts, id)[i].(cancelled := ts[i].cancelled) == ts[i]
    ensures (forall i :: 0 <= i < |ts| ==> ts[i].id != id) ==> CancelIn(ts, id) == ts
    ensures forall i :: 0 <= i < |ts| && ts[i].id == id ==>
      exists j :: 0 <= j <= i && ts[j].id == id && CancelIn(ts, id)[j].cancelled
  {
  }

  /** `Tween::CancelAll` on a list. */
  function CancelAllIn(ts: seq<TweenInstance>): (r: seq<TweenInstance>)
    ensures |r| == |ts|
    ensures forall i :: 0 <= i < |ts| ==> r[i] == ts[i].(cancelled := true)
  {
    seq(|ts|, i requires 0 <= i < |ts| => ts[i].(cancelled := true))
  }

  /** After `CancelAll` the next `Update` makes no callback and leaves no tween. */
  lemma CancelAllEmptiesNextUpdate(ts: seq<TweenInstance>, dt: real)
    requires IncreasingIds(ts)
    ensures UpdateTweens(CancelAllIn(ts), dt) == []
    ensures FirstPass(CancelAllIn(ts), dt).events == []
  {
    var c := CancelAllIn(ts);
    assert IncreasingIds(c);
    UpdateKeepsSurvivors(c, dt);
    NoSurvivors(c, dt);
    NoCalls(c, dt);
  }

  lemma {:induction false} NoSurvivors(ts: seq<TweenInstance>, dt: real)
    requires forall i :: 0 <= i < |ts| ==> ts[i].cancelled
    ensures Survivors(ts, dt) == []
    decreases |ts|
  {
    if |ts| > 0 {
      NoSurvivors(ts[..|ts| - 1], dt);
    }
  }

  lemma {:induction false} NoCalls(ts: seq<TweenInstance>, dt: real)
    requires forall i :: 0 <= i < |ts| ==> ts[i].cancelled
    ensures FirstPass(ts, dt).events == []
    decreases |ts|
  {
    if |ts| > 0 {
      NoCalls(ts[..|ts| - 1], dt);
    }
  }

  /** The tween system's state (the static members of `Tween`). */
  class TweenSystem {
    var tweens: seq<TweenInstance>
    var nextTweenId: int

    /** Ids increase along the list and are all below the next id to hand
        out, which is at least 1. */
    ghost predicate Valid()
      reads this
    {
      nextTweenId >= 1 && IncreasingIds(tweens)
      && forall i :: 0 <= i < |tweens| ==> tweens[i].id < nextTweenId
    }

    /** The static initialisers of Tween.hpp. */
    constructor ()
      ensures Valid() && tweens == [] && nextTweenId == 1
    {
      tweens := [];
      nextTweenId := 1;
    }

    /** `Tween::Init`. */
    method Init()
      modifies this
      ensures Valid() && tweens == [] && nextTweenId == 1
    {
      tweens := [];
      nextTweenId := 1;
    }

    /** `Tween::To`: appends a fresh tween and returns its id, the counter's
        old value.  `hasUpdate` / `hasComplete` say whether the Lua
        arguments are functions. */
    method To(from: real, to: real, duration: real, easeName: string,
              hasUpdate: bool, hasComplete: bool) returns (id: int)
      requires Valid()
      modifies this
      ensures Valid()
      ensures id == old(nextTweenId) && nextTweenId == id + 1
      ensures tweens == old(tweens) + [NewTween(id, from, to, duration, easeName, hasUpdate, hasComplete)]
    {
      id := nextTweenId;
      nextTweenId := nextTweenId + 1;
      tweens := tweens + [NewTween(id, from, to, duration, easeName, hasUpdate, hasComplete)];
    }

    /** `Tween::Update`: the first loop advances the tweens in place and
        collects the ids to remove and the callbacks made; then the listed
        ids are removed. */
    method Update(dt: real) returns (events: seq<Event>)
      requires Valid()
      modifies this
      ensures Valid() && nextTweenId == old(nextTweenId)
      ensures tweens == UpdateTweens(old(tweens), dt) == Survivors(old(tweens), dt)
      ensures events == FirstPass(old(tweens), dt).events
    {
      ghost var ts := tweens;
      var toRemove;
      toRemove, events := AdvanceAll(dt);
      RemoveListed(toRemove);
      UpdateKeepsSurvivors(ts, dt);
      SurvivorsIncreasing(ts, dt);
      SurvivorsFromList(ts, dt);
      forall k | 0 <= k < |tweens|
        ensures tweens[k].id < nextTweenId
      {
        assert tweens[k] in Survivors(ts, dt);
        var i :| 0 <= i < |ts| && tweens[k] == Advance(ts[i], dt) && !Removed(ts[i], dt);
      }
    }

    /** The loop of Tween.cpp:25-59. */
    method AdvanceAll(dt: real) returns (toRemove: seq<int>, events: seq<Event>)
      modifies this
      ensures nextTweenId == old(nextTweenId)
      ensures tweens == FirstPass(old(tweens), dt).updated
      ensures toRemove == FirstPass(old(tweens), dt).toRemove
      ensures events == FirstPass(old(tweens), dt).events
    {
      ghost var ts := tweens;
      toRemove := [];
      events := [];
      var i := 0;
      while i < |tweens|
        invariant 0 <= i <= |tweens| == |ts| && nextTweenId == old(nextTweenId)
        invariant forall k :: 0 <= k < i ==> tweens[k] == AfterPass(ts[k], dt)
        invariant forall k :: i <= k < |ts| ==> tweens[k] == ts[k]
        invariant toRemove == FirstPass(ts[..i], dt).toRemove
        invariant events == FirstPass(ts[..i], dt).events
      {
        FirstPassStep(ts, i, dt);
        var tw, remove, calls := AdvanceOne(tweens[i], dt);
        tweens := tweens[i := tw];
        if remove {
          toRemove := toRemove + [tw.id];
        }
        events := events + calls;
        i := i + 1;
      }
      assert ts == ts[..i];
      FirstPassUpdated(ts, dt);
    }

    /** The body of that loop for one tween: whether its id goes on the
        removal list and the callbacks it gets (Tween.cpp:26-58). */
    static method AdvanceOne(tw0: TweenInstance, dt: real)
      returns (tw: TweenInstance, remove: bool, calls: seq<Event>)
      ensures tw == AfterPass(tw0, dt) && tw.id == tw0.id
      ensures remove == Removed(tw0, dt)
      ensures calls == Calls(tw0, dt)
    {
      tw := tw0;
      remove := false;
      calls := [];
      if tw.cancelled {
        remove := true;
        return;
      }
      tw := Advance(tw, dt);
      if tw.onUpdate {
        calls := calls + [UpdateCalled(tw.id)];
      }
      if Finished(tw.elapsed, tw.duration) {
        if tw.onComplete {
          calls := calls + [CompleteCalled(tw.id)];
        }
        remove := true;
      }
    }

    /** The `erase`/`remove_if` of Tween.cpp:62-68. */
    method RemoveListed(ids: seq<int>)
      modifies this
      ensures nextTweenId == old(nextTweenId)
      ensures tweens == RemoveIds(old(tweens), ids)
    {
      var kept: seq<TweenInstance> := [];
      var j := 0;
      while j < |tweens|
        invariant 0 <= j <= |tweens|
        invariant kept == RemoveIds(tweens[..j], ids)
      {
        assert tweens[..j + 1][..j] == tweens[..j];
        if tweens[j].id !in ids {
          kept := kept + [tweens[j]];
        }
        j := j + 1;
      }
      assert tweens[..j] == tweens;
      tweens := kept;
    }

    /** `Tween::Cancel`. */
    method Cancel(tweenId: int)
      requires Valid()
      modifies this
      ensures Valid() && nextTweenId == old(nextTweenId)
      ensures tweens == CancelIn(old(tweens), tweenId)
    {
      var i := 0;
      while i < |tweens|
        invariant 0 <= i <= |tweens|
        invariant forall k :: 0 <= k < i ==> tweens[k].id != tweenId
      {
        if tweens[i].id == tweenId {
          assert IndexOf(tweens, tweenId) == i;
          tweens := tweens[i := tweens[i].(cancelled := true)];
          return;
        }
        i := i + 1;
      }
    }

    /** `Tween::CancelAll`. */
    method CancelAll()
      requires Valid()
      modifies this
      ensures Valid() && nextTweenId == old(nextTweenId)
      ensures tweens == CancelAllIn(old(tweens))
    {
      var i := 0;
      ghost var ts := tweens;
      while i < |tweens|
        invariant 0 <= i <= |tweens| == |ts| && nextTweenId == old(nextTweenId)
        invariant forall k :: 0 <= k < i ==> tweens[k] == ts[k].(cancelled := true)
        invariant forall k :: i <= k < |ts| ==> tweens[k] == ts[k]
      {
        tweens := tweens[i := tweens[i].(cancelled := true)];
        i := i + 1;
      }
    }

    /** `Tween::Clear`: the list is emptied; the id counter is kept. */
    method Clear()
      requires Valid()
      modifies this
      ensures Valid() && tweens == [] && nextTweenId == old(nextTweenId)
    {
      tweens := [];
    }
  }
}
