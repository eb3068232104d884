/** The timer scheduler (Scheduler.hpp / Scheduler.cpp): `Timer.After` and
    `Timer.Every` tasks with a delay counting down, an interval to restart
    from and a repeat counter.  `Update` counts every task down, fires the
    due ones and removes the cancelled and the finished ones.  The source's
    `float`s are `real`s; a task's callback is a Lua function (the
    registering calls refuse anything else), and firing it is reported as an
    event.  A callback is taken not to call back into the scheduler during
    `Update`. */
module Scheduling {
  import opened Wrappers

  /** `ScheduledTask`: `repeatCount` is -1 for ever, 0 for done, and
      otherwise the repeats still to come. */
  datatype ScheduledTask = ScheduledTask(
    id: int,
    delay: real,
    interval: real,
    repeatCount: int,
    cancelled: bool)

  /** Whether a task whose delay ran out is started again. */
  predicate Repeats(t: ScheduledTask)
  {
    t.interval > 0.0 && t.repeatCount != 0
  }

  /** Whether `Update` calls the task's callback this frame. */
  predicate Fires(t: ScheduledTask, dt: real)
  {
    !t.cancelled && t.delay - dt <= 0.0
  }

  /** Whether `Update` puts the task's id on its removal list. */
  predicate Removed(t: ScheduledTask, dt: real)
  {
    t.cancelled || (Fires(t, dt) && !Repeats(t))
  }

  /** A task after the loop of `Update` has looked at it. */
  function AfterPass(t: ScheduledTask, dt: real): ScheduledTask
  {
    if t.cancelled then t
    else
      var c := t.(delay := t.delay - dt);
      if c.delay <= 0.0 && Repeats(c) then
        c.(delay := c.interval, repeatCount := if c.repeatCount > 0 then c.repeatCount - 1 else c.repeatCount)
      else c
  }

  /** What the first loop of `Update` leaves: the list with every live task
      counted down (and restarted where due), the ids to remove, and the ids
      of the tasks whose callbacks were called, in order. */
  datatype Pass = Pass(updated: seq<ScheduledTask>, toRemove: seq<int>, fired: seq<int>)

  /** The loop of `Scheduler::Update` (Scheduler.cpp:20-50) over `ts`. */
  function FirstPass(ts: seq<ScheduledTask>, dt: real): (p: Pass)
    ensures |p.updated| == |ts|
    ensures |p.toRemove| <= |ts| && |p.fired| <= |ts|
    decreases |ts|
  {
    if |ts| == 0 then Pass([], [], [])
    else
      var p := FirstPass(ts[..|ts| - 1], dt);
      var t := ts[|ts| - 1];
      Pass(p.updated + [AfterPass(t, dt)],
           p.toRemove + (if Removed(t, dt) then [t.id] else []),
           p.fired + (if Fires(t, dt) then [t.id] else []))
  }

  lemma FirstPassStep(ts: seq<ScheduledTask>, i: nat, dt: real)
    requires i < |ts|
    ensures FirstPass(ts[..i + 1], dt).toRemove
            == FirstPass(ts[..i], dt).toRemove + (if Removed(ts[i], dt) then [ts[i].id] else [])
    ensures FirstPass(ts[..i + 1], dt).fired
            == FirstPass(ts[..i], dt).fired + (if Fires(ts[i], dt) then [ts[i].id] else [])
  {
    assert ts[..i + 1][..i] == ts[..i];
  }

  /** The `remove_if` of `Scheduler::Update`: drop every task whose id is listed. */
  function RemoveIds(ts: seq<ScheduledTask>, ids: seq<int>): seq<ScheduledTask>
    decreases |ts|
  {
    if |ts| == 0 then []
    else RemoveIds(ts[..|ts| - 1], ids) + (if ts[|ts| - 1].id in ids then [] else [ts[|ts| - 1]])
  }

  /** The task list after `Scheduler::Update`. */
  function UpdateTasks(ts: seq<ScheduledTask>, dt: real): (r: seq<ScheduledTask>)
    ensures forall t :: t in r ==> exists i :: 0 <= i < |ts| && t == AfterPass(ts[i], dt) && !Removed(ts[i], dt)
  {
    UpdateTasksFromList(ts, dt);
    RemoveIds(FirstPass(ts, dt).updated, FirstPass(ts, dt).toRemove)
  }

  /** `remove_if` keeps exactly the tasks whose ids are not listed. */
  lemma {:induction false} RemoveIdsMembers(ts: seq<ScheduledTask>, ids: seq<int>, t: ScheduledTask)
    ensures t in RemoveIds(ts, ids) <==> t in ts && t.id !in ids
    decreases |ts|
  {
    if |ts| > 0 {
      RemoveIdsMembers(ts[..|ts| - 1], ids, t);
      assert ts == ts[..|ts| - 1] + [ts[|ts| - 1]];
    }
  }

  lemma UpdateTasksFromList(ts: seq<ScheduledTask>, dt: real)
    ensures forall t :: t in RemoveIds(FirstPass(ts, dt).updated, FirstPass(ts, dt).toRemove) ==>
        exists i :: 0 <= i < |ts| && t == AfterPass(ts[i], dt) && !Removed(ts[i], dt)
  {
    var p := FirstPass(ts, dt);
    FirstPassUpdated(ts, dt);
    forall t | t in RemoveIds(p.updated, p.toRemove)
      ensures exists i :: 0 <= i < |ts| && t == AfterPass(ts[i], dt) && !Removed(ts[i], dt)
    {
      RemoveIdsMembers(p.updated, p.toRemove, t);
      var i :| 0 <= i < |p.updated| && p.updated[i] == t;
      FirstPassRemoves(ts, dt, t.id);
      assert ts[i].id == t.id;
    }
  }

  /** The survivors of one `Update`, stated directly: every task that is
      neither cancelled nor finished, counted down, in its old order. */
  function Survivors(ts: seq<ScheduledTask>, dt: real): (r: seq<ScheduledTask>)
    ensures |r| <= |ts|
    ensures forall t :: t in r ==> !t.cancelled
    decreases |ts|
  {
    if |ts| == 0 then []
    else Survivors(ts[..|ts| - 1], dt)
         + (if Removed(ts[|ts| - 1], dt) then [] else [AfterPass(ts[|ts| - 1], dt)])
  }

  /** Ids strictly increase along the list. */
  ghost predicate IncreasingIds(ts: seq<ScheduledTask>)
  {
    forall i, j :: 0 <= i < j < |ts| ==> ts[i].id < ts[j].id
  }

  lemma {:induction false} FirstPassUpdated(ts: seq<ScheduledTask>, dt: real)
    ensures |FirstPass(ts, dt).updated| == |ts|
    ensures forall i :: 0 <= i < |ts| ==> FirstPass(ts, dt).updated[i] == AfterPass(ts[i], dt)
    decreases |ts|
  {
    if |ts| > 0 {
      FirstPassUpdated(ts[..|ts| - 1], dt);
    }
  }

  /** An id goes on the removal list exactly when a task with that id is
      cancelled, or fires and does not repeat. */
  lemma {:induction false} FirstPassRemoves(ts: seq<ScheduledTask>, dt: real, id: int)
    ensures id in FirstPass(ts, dt).toRemove <==>
      exists i :: 0 <= i < |ts| && ts[i].id == id && Removed(ts[i], dt)
    decreases |ts|
  {
    if |ts| > 0 {
      var init := ts[..|ts| - 1];
      FirstPassRemoves(init, dt, id);
      if exists i :: 0 <= i < |ts| && ts[i].id == id && Removed(ts[i], dt) {
        var i :| 0 <= i < |ts| && ts[i].id == id && Removed(ts[i], dt);
        if i < |ts| - 1 {
          assert init[i] == ts[i];
        }
      }
      if exists i :: 0 <= i < |init| && init[i].id == id && Removed(init[i], dt) {
        var i :| 0 <= i < |init| && init[i].id == id && Removed(init[i], dt);
        assert ts[i] == init[i];
      }
    }
  }

  /** The callbacks of one `Update` are those of the live tasks that are
      due, in list order; a cancelled task never fires. */
  lemma {:induction false} FirstPassFires(ts: seq<ScheduledTask>, dt: real, id: int)
    ensures id in FirstPass(ts, dt).fired <==>
      exists i :: 0 <= i < |ts| && ts[i].id == id && Fires(ts[i], dt)
    decreases |ts|
  {
    if |ts| > 0 {
      var init := ts[..|ts| - 1];
      FirstPassFires(init, dt, id);
      if exists i :: 0 <= i < |ts| && ts[i].id == id && Fires(ts[i], dt) {
        var i :| 0 <= i < |ts| && ts[i].id == id && Fires(ts[i], dt);
        if i < |ts| - 1 {
          assert init[i] == ts[i];
        }
      }
      if exists i :: 0 <= i < |init| && init[i].id == id && Fires(init[i], dt) {
        var i :| 0 <= i < |init| && init[i].id == id && Fires(init[i], dt);
        assert ts[i] == init[i];
      }
    }
  }

  /** With distinct ids, `Update` keeps exactly the tasks that are neither
      cancelled nor finished, updated and in their old order. */
  lemma UpdateKeepsSurvivors(ts: seq<ScheduledTask>, dt: real)
    requires IncreasingIds(ts)
    ensures UpdateTasks(ts, dt) == Survivors(ts, dt)
  {
    var p := FirstPass(ts, dt);
    FirstPassUpdated(ts, dt);
    forall i | 0 <= i < |ts|
      ensures ts[i].id in p.toRemove <==> Removed(ts[i], dt)
    {
      FirstPassRemoves(ts, dt, ts[i].id);
    }
    RemovePrefix(ts, dt, p.updated, p.toRemove, |ts|);
    assert p.updated[..|ts|] == p.updated;
    assert ts[..|ts|] == ts;
  }

  lemma {:induction false} RemovePrefix(ts: seq<ScheduledTask>, dt: real, us: seq<ScheduledTask>,
                                        ids: seq<int>, k: nat)
    requires k <= |ts| == |us|
    requires forall i :: 0 <= i < |ts| ==> us[i] == AfterPass(ts[i], dt)
    requires forall i :: 0 <= i < |ts| ==> (ts[i].id in ids <==> Removed(ts[i], dt))
    ensures RemoveIds(us[..k], ids) == Survivors(ts[..k], dt)
    decreases k
  {
    if k > 0 {
      RemovePrefix(ts, dt, us, ids, k - 1);
      assert us[..k][..k - 1] == us[..k - 1];
      assert ts[..k][..k - 1] == ts[..k - 1];
      assert us[k - 1].id == ts[k - 1].id;
    }
  }

  /** Every survivor is a task of the old list after its frame. */
  lemma {:induction false} SurvivorsFromList(ts: seq<ScheduledTask>, dt: real)
    ensures forall s :: s in Survivors(ts, dt) ==>
      exists i :: 0 <= i < |ts| && s == AfterPass(ts[i], dt) && !Removed(ts[i], dt)
    decreases |ts|
  {
    if |ts| > 0 {
      var init := ts[..|ts| - 1];
      SurvivorsFromList(init, dt);
      forall s | s in Survivors(ts, dt)
        ensures exists i :: 0 <= i < |ts| && s == AfterPass(ts[i], dt) && !Removed(ts[i], dt)
      {
        if s in Survivors(init, dt) {
          var i :| 0 <= i < |init| && s == AfterPass(init[i], dt) && !Removed(init[i], dt);
          assert ts[i] == init[i];
        } else {
          assert s == AfterPass(ts[|ts| - 1], dt);
        }
      }
    }
  }

  /** The survivors keep increasing ids. */
  lemma {:induction false} SurvivorsIncreasing(ts: seq<ScheduledTask>, dt: real)
    requires IncreasingIds(ts)
    ensures IncreasingIds(Survivors(ts, dt))
    decreases |ts|
  {
    if |ts| > 0 {
      var init := ts[..|ts| - 1];
      SurvivorsIncreasing(init, dt);
      SurvivorsFromList(init, dt);
      var s := Survivors(init, dt);
      forall x | x in s
        ensures x.id < ts[|ts| - 1].id
      {
        var i :| 0 <= i < |init| && x == AfterPass(init[i], dt) && !Removed(init[i], dt);
        assert init[i] == ts[i];
      }
      forall i, j | 0 <= i < j < |Survivors(ts, dt)|
        ensures Survivors(ts, dt)[i].id < Survivors(ts, dt)[j].id
      {
        if j >= |s| {
          assert Survivors(ts, dt)[i] == s[i];
          assert s[i] in s;
        } else {
          assert Survivors(ts, dt)[i] == s[i] && Survivors(ts, dt)[j] == s[j];
        }
      }
    }
  }

  /** No cancelled task survives an `Update`. */
  lemma CancelledRemoved(ts: seq<ScheduledTask>, dt: real)
    ensures forall s :: s in Survivors(ts, dt) ==> !s.cancelled
  {
    SurvivorsFromList(ts, dt);
  }

  /** The task `After` adds. */
  function AfterTask(id: int, delay: real): (t: ScheduledTask)
    ensures t.interval == 0.0 && t.repeatCount == 0 && !t.cancelled
  {
    ScheduledTask(id, delay, 0.0, 0, false)
  }

  /** The task `Every` adds. */
  function EveryTask(id: int, delay: real, interval: real): (t: ScheduledTask)
    ensures t.repeatCount == -1 && !t.cancelled
  {
    ScheduledTask(id, delay, interval, -1, false)
  }

  /** One frame of a task: a due task with an interval and repeats left
      restarts from the interval and uses up one repeat (none for ever
      tasks); a due task without either is removed; a task not yet due only
      counts down. */
  lemma TaskStep(t: ScheduledTask, dt: real)
    requires !t.cancelled
    ensures !Fires(t, dt) ==> !Removed(t, dt) && AfterPass(t, dt) == t.(delay := t.delay - dt)
    ensures Fires(t, dt) && Repeats(t) ==>
      !Removed(t, dt) && AfterPass(t, dt).delay == t.interval
      && AfterPass(t, dt).repeatCount == (if t.repeatCount > 0 then t.repeatCount - 1 else t.repeatCount)
    ensures Fires(t, dt) && !Repeats(t) ==> Removed(t, dt)
  {
  }

  /** One task alone over a sequence of frames: whether it is still there
      and how often its callback was called.  `Update` treats every task on
      its own (see `UpdateKeepsSurvivors`), so this is its life in the list. */
  function RunTask(t: ScheduledTask, dts: seq<real>): (Option<ScheduledTask>, nat)
    decreases |dts|
  {
    if |dts| == 0 then (Some(t), 0)
    else
      var now := if Fires(t, dts[0]) then 1 else 0;
      if Removed(t, dts[0]) then (None, now)
      else
        var r := RunTask(AfterPass(t, dts[0]), dts[1..]);
        (r.0, r.1 + now)
  }

  /** A task with `n >= 0` repeats left fires at most `n + 1` more times;
      an `After` task (no repeats) fires at most once. */
  lemma {:induction false} FiresAtMostRepeatsPlusOne(t: ScheduledTask, dts: seq<real>)
    requires t.repeatCount >= 0
    ensures RunTask(t, dts).1 <= t.repeatCount + 1
    decreases |dts|
  {
    if |dts| > 0 && !Removed(t, dts[0]) {
      FiresAtMostRepeatsPlusOne(AfterPass(t, dts[0]), dts[1..]);
    }
  }

  /** An `Every` task with a positive interval stays scheduled until it is
      cancelled, however many frames pass. */
  lemma {:induction false} EveryStaysScheduled(t: ScheduledTask, dts: seq<real>)
    requires !t.cancelled && t.interval > 0.0 && t.repeatCount == -1
    ensures RunTask(t, dts).0.Some?
    ensures RunTask(t, dts).0.value.repeatCount == -1
    decreases |dts|
  {
    if |dts| > 0 {
      EveryStaysScheduled(AfterPass(t, dts[0]), dts[1..]);
    }
  }

  /** The index of the first task with the id, or -1. */
  function IndexOf(ts: seq<ScheduledTask>, id: int): (k: int)
    ensures -1 <= k < |ts|
    ensures k == -1 <==> forall i :: 0 <= i < |ts| ==> ts[i].id != id
    ensures k >= 0 ==> ts[k].id == id && forall i :: 0 <= i < k ==> ts[i].id != id
    decreases |ts|
  {
    if |ts| == 0 then -1
    else if ts[0].id == id then 0
    else
      var k := IndexOf(ts[1..], id);
      if k == -1 then -1 else k + 1
  }

  /** `Scheduler::Cancel` on a list: the first task with the id is flagged. */
  function CancelIn(ts: seq<ScheduledTask>, id: int): (r: seq<ScheduledTask>)
    ensures |r| == |ts|
    ensures forall i :: 0 <= i < |ts| ==> r[i].id == ts[i].id && (ts[i].cancelled ==> r[i].cancelled)
  {
    var k := IndexOf(ts, id);
    if k == -1 then ts else ts[k := ts[k].(cancelled := true)]
  }

  /** Cancelling changes only the `cancelled` flag of the first matching
      task; an unknown id changes nothing. */
  lemma CancelEffect(ts: seq<ScheduledTask>, id: int)
    ensures |CancelIn(ts, id)| == |ts|
    ensures forall i :: 0 <= i < |ts| ==> CancelIn(ts, id)[i].(cancelled := ts[i].cancelled) == ts[i]
    ensures (forall i :: 0 <= i < |ts| ==> ts[i].id != id) ==> CancelIn(ts, id) == ts
    ensures forall i :: 0 <= i < |ts| && ts[i].id == id ==>
      exists j :: 0 <= j <= i && ts[j].id == id && CancelIn(ts, id)[j].cancelled
  {
  }

  /** A cancelled task is gone after the next `Update` and does not fire in it. */
  lemma CancelledTaskGone(ts: seq<ScheduledTask>, id: int, dt: real)
    requires IncreasingIds(ts)
    ensures forall s :: s in UpdateTasks(CancelIn(ts, id), dt) ==> s.id != id
    ensures id !in FirstPass(CancelIn(ts, id), dt).fired
  {
    var c := CancelIn(ts, id);
    assert IncreasingIds(c);
    UpdateKeepsSurvivors(c, dt);
    SurvivorsFromList(c, dt);
    FirstPassFires(c, dt, id);
  }

  /** `Scheduler::CancelAll` on a list. */
  function CancelAllIn(ts: seq<ScheduledTask>): (r: seq<ScheduledTask>)
    ensures |r| == |ts|
    ensures forall i :: 0 <= i < |ts| ==> r[i] == ts[i].(cancelled := true)
  {
    seq(|ts|, i requires 0 <= i < |ts| => ts[i].(cancelled := true))
  }

  /** The scheduler's state (the static members of `Scheduler`). */
  class Scheduler {
    var tasks: seq<ScheduledTask>
    var nextTaskId: int

    /** Ids increase along the list and are all below the next id to hand
        out, which is at least 1. */
    ghost predicate Valid()
      reads this
    {
      nextTaskId >= 1 && IncreasingIds(tasks)
      && forall i :: 0 <= i < |tasks| ==> tasks[i].id < nextTaskId
    }

    /** The static initialisers of Scheduler.hpp. */
    constructor ()
      ensures Valid() && tasks == [] && nextTaskId == 1
    {
      tasks := [];
      nextTaskId := 1;
    }

    /** `Scheduler::Init`. */
    method Init()
      modifies this
      ensures Valid() && tasks == [] && nextTaskId == 1
    {
      tasks := [];
      nextTaskId := 1;
    }

    /** `Scheduler::After`; `isFunction` says whether the callback is a Lua
        function.  Anything else is refused with id 0. */
    method After(delay: real, isFunction: bool) returns (id: int)
      requires Valid()
      modifies this
      ensures Valid()
      ensures !isFunction ==> id == 0 && tasks == old(tasks) && nextTaskId == old(nextTaskId)
      ensures isFunction ==> id == old(nextTaskId) && nextTaskId == id + 1
                             && tasks == old(tasks) + [AfterTask(id, delay)]
    {
      if !isFunction {
        return 0;
      }
      id := nextTaskId;
      nextTaskId := nextTaskId + 1;
      tasks := tasks + [AfterTask(id, delay)];
    }

    /** `Scheduler::Every`. */
    method Every(delay: real, interval: real, isFunction: bool) returns (id: int)
      requires Valid()
      modifies this
      ensures Valid()
      ensures !isFunction ==> id == 0 && tasks == old(tasks) && nextTaskId == old(nextTaskId)
      ensures isFunction ==> id == old(nextTaskId) && nextTaskId == id + 1
                             && tasks == old(tasks) + [EveryTask(id, delay, interval)]
    {
      if !isFunction {
        return 0;
      }
      id := nextTaskId;
      nextTaskId := nextTaskId + 1;
      tasks := tasks + [EveryTask(id, delay, interval)];
    }

    /** `Scheduler::Update`: returns the ids of the tasks whose callbacks
        were called, in order. */
    method Update(dt: real) returns (fired: seq<int>)
      requires Valid()
      modifies this
      ensures Valid() && nextTaskId == old(nextTaskId)
      ensures tasks == UpdateTasks(old(tasks), dt) == Survivors(old(tasks), dt)
      ensures fired == FirstPass(old(tasks), dt).fired
    {
      ghost var ts := tasks;
      var toRemove;
      toRemove, fired := CountDownAll(dt);
      RemoveListed(toRemove);
      UpdateKeepsSurvivors(ts, dt);
      SurvivorsIncreasing(ts, dt);
      SurvivorsFromList(ts, dt);
      forall k | 0 <= k < |tasks|
        ensures tasks[k].id < nextTaskId
      {
        assert tasks[k] in Survivors(ts, dt);
        var i :| 0 <= i < |ts| && tasks[k] == AfterPass(ts[i], dt) && !Removed(ts[i], dt);
      }
    }

    /** The loop of Scheduler.cpp:20-50. */
    method CountDownAll(dt: real) returns (toRemove: seq<int>, fired: seq<int>)
      modifies this
      ensures nextTaskId == old(nextTaskId)
      ensures tasks == FirstPass(old(tasks), dt).updated
      ensures toRemove == FirstPass(old(tasks), dt).toRemove
      ensures fired == FirstPass(old(tasks), dt).fired
    {
      ghost var ts := tasks;
      toRemove := [];
      fired := [];
      var i := 0;
      while i < |tasks|
        invariant 0 <= i <= |tasks| == |ts| && nextTaskId == old(nextTaskId)
        invariant forall k :: 0 <= k < i ==> tasks[k] == AfterPass(ts[k], dt)
        invariant forall k :: i <= k < |ts| ==> tasks[k] == ts[k]
        invariant toRemove == FirstPass(ts[..i], dt).toRemove
        invariant fired == FirstPass(ts[..i], dt).fired
      {
        FirstPassStep(ts, i, dt);
        var t, remove, fires := CountDownOne(tasks[i], dt);
        tasks := tasks[i := t];
        if fires {
          fired := fired + [t.id];
        }
        if remove {
          toRemove := toRemove + [t.id];
        }
        i := i + 1;
      }
      assert ts == ts[..i];
      FirstPassUpdated(ts, dt);
    }

    /** The body of that loop for one task (Scheduler.cpp:21-49). */
    static method CountDownOne(t0: ScheduledTask, dt: real)
      returns (t: ScheduledTask, remove: bool, fires: bool)
      ensures t == AfterPass(t0, dt) && t.id == t0.id
      ensures remove == Removed(t0, dt) && fires == Fires(t0, dt)
    {
      t := t0;
      remove := false;
      fires := false;
      if t.cancelled {
        remove := true;
        return;
      }
      t := t.(delay := t.delay - dt);
      if t.delay <= 0.0 {
        fires := true;
        if t.interval > 0.0 && t.repeatCount != 0 {
          t := t.(delay := t.interval);
          if t.repeatCount > 0 {
            t := t.(repeatCount := t.repeatCount - 1);
          }
        } else {
          remove := true;
        }
      }
    }

    /** The `erase`/`remove_if` of Scheduler.cpp:53-59. */
    method RemoveListed(ids: seq<int>)
      modifies this
      ensures nextTaskId == old(nextTaskId)
      ensures tasks == RemoveIds(old(tasks), ids)
    {
      var kept: seq<ScheduledTask> := [];
      var j := 0;
      while j < |tasks|
        invariant 0 <= j <= |tasks|
        invariant kept == RemoveIds(tasks[..j], ids)
      {
        assert tasks[..j + 1][..j] == tasks[..j];
        if tasks[j].id !in ids {
          kept := kept + [tasks[j]];
        }
        j := j + 1;
      }
      assert tasks[..j] == tasks;
      tasks := kept;
    }

    /** `Scheduler::Cancel`. */
    method Cancel(taskId: int)
      requires Valid()
      modifies this
      ensures Valid() && nextTaskId == old(nextTaskId)
      ensures tasks == CancelIn(old(tasks), taskId)
    {
      var i := 0;
      while i < |tasks|
        invariant 0 <= i <= |tasks|
        invariant forall k :: 0 <= k < i ==> tasks[k].id != taskId
      {
        if tasks[i].id == taskId {
          assert IndexOf(tasks, taskId) == i;
          tasks := tasks[i := tasks[i].(cancelled := true)];
          return;
        }
        i := i + 1;
      }
    }

    /** `Scheduler::CancelAll`. */
    method CancelAll()
      requires Valid()
      modifies this
      ensures Valid() && nextTaskId == old(nextTaskId)
      ensures tasks == CancelAllIn(old(tasks))
    {
      var i := 0;
      ghost var ts := tasks;
      while i < |tasks|
        invariant 0 <= i <= |tasks| == |ts| && nextTaskId == old(nextTaskId)
        invariant forall k :: 0 <= k < i ==> tasks[k] == ts[k].(cancelled := true)
        invariant forall k :: i <= k < |ts| ==> tasks[k] == ts[k]
      {
        tasks := tasks[i := tasks[i].(cancelled := true)];
        i := i + 1;
      }
    }

    /** `Scheduler::Clear`: the list is emptied; the id counter is kept. */
    method Clear()
      requires Valid()
      modifies this
      ensures Valid() && tasks == [] && nextTaskId == old(nextTaskId)
    {
      tasks := [];
    }
  }
}
