/** Frame timing (Time.hpp / Time.cpp): the clamped delta time of the last
    frame, a time scale for slow motion and pause, scaled and unscaled running
    totals and a frame counter.  The engine keeps these as static fields of one
    class; here they are the fields of a `Clock` object.  The wall clock that
    `Time::Update` reads is a parameter: `elapsed` is the time since the
    previous frame.  The source's `float`s are `real`s. */
module Time {

  /** Bounds of `std::clamp` in `Time::Update`. */
  const MinDelta: real := 0.0001
  const MaxDelta: real := 0.25

  /** Initial delta time and the fixed physics step, one sixtieth of a second. */
  const DefaultDelta: real := 1.0 / 60.0
  const FixedDeltaTime: real := 1.0 / 60.0

  /** A snapshot of the timing fields. */
  datatype TimeState = TimeState(
    deltaTime: real,
    timeScale: real,
    totalTime: real,
    unscaledTotalTime: real,
    frameCount: int,
    initialized: bool)

  /** The static initialisers of Time.hpp, before `Init` has run. */
  function Defaults(): (t: TimeState)
    ensures !t.initialized && t.frameCount == 0
    ensures t.deltaTime == DefaultDelta && t.timeScale == 1.0
  {
    TimeState(DefaultDelta, 1.0, 0.0, 0.0, 0, false)
  }

  /** `Time::Init`: every field back to its starting value, including the time scale. */
  function InitState(): (t: TimeState)
    ensures t.initialized && t.frameCount == 0
    ensures t.totalTime == 0.0 && t.unscaledTotalTime == 0.0
    ensures t.deltaTime == DefaultDelta && t.timeScale == 1.0
  {
    TimeState(DefaultDelta, 1.0, 0.0, 0.0, 0, true)
  }

  /** `std::clamp(x, lo, hi)`. */
  function Clamp(x: real, lo: real, hi: real): (r: real)
    requires lo <= hi
    ensures lo <= r <= hi
    ensures lo <= x <= hi ==> r == x
    ensures x < lo ==> r == lo
    ensures x > hi ==> r == hi
  {
    if x < lo then lo else if hi < x then hi else x
  }

  /** `Time::Update` with `elapsed` seconds since the previous frame: an
      uninitialised clock is initialised first, then the delta is clamped and
      added to both totals, scaled for one of them. */
  function Step(t: TimeState, elapsed: real): (r: TimeState)
    ensures r.initialized
    ensures t.initialized ==> r.timeScale == t.timeScale && r.frameCount == t.frameCount + 1
    ensures t.initialized ==> r.unscaledTotalTime == t.unscaledTotalTime + r.deltaTime
    ensures t.initialized ==> r.totalTime == t.totalTime + r.deltaTime * t.timeScale
  {
    var d := Clamp(elapsed, MinDelta, MaxDelta);
    if t.initialized then Advance(t, d) else Advance(InitState(), d)
  }

  /** One frame of `d` seconds added to an initialised clock: the unscaled
      total moves by `d` and the scaled total by the scale times that. */
  function Advance(t: TimeState, d: real): (r: TimeState)
    ensures r.initialized && r.deltaTime == d && r.timeScale == t.timeScale
    ensures r.frameCount == t.frameCount + 1
    ensures r.unscaledTotalTime - t.unscaledTotalTime == d
    ensures ScaledSince(t, r)
  {
    t.(deltaTime := d,
       unscaledTotalTime := t.unscaledTotalTime + d,
       totalTime := t.totalTime + d * t.timeScale,
       frameCount := t.frameCount + 1,
       initialized := true)
  }

  /** The invariant the timing fields keep from the static initialisers on:
      the delta lies inside the clamp bounds, and the unscaled total, reset
      together with the frame counter, lies between the counter times the
      lower and the upper bound. */
  ghost predicate Consistent(t: TimeState)
  {
    MinDelta <= t.deltaTime <= MaxDelta && t.frameCount >= 0
    && t.frameCount as real * MinDelta <= t.unscaledTotalTime <= t.frameCount as real * MaxDelta
  }

  /** The starting values are consistent and every update keeps them so. */
  lemma StepConsistent(t: TimeState, elapsed: real)
    requires Consistent(t)
    ensures Consistent(Defaults()) && Consistent(InitState())
    ensures Consistent(Step(t, elapsed))
  {
    var r := Step(t, elapsed);
    assert r.unscaledTotalTime - (if t.initialized then t else InitState()).unscaledTotalTime == r.deltaTime;
  }

  /** The delta of a frame never leaves [MinDelta, MaxDelta], and is the
      measured time whenever that lies inside the bounds. */
  lemma StepDelta(t: TimeState, elapsed: real)
    ensures MinDelta <= Step(t, elapsed).deltaTime <= MaxDelta
    ensures MinDelta <= elapsed <= MaxDelta ==> Step(t, elapsed).deltaTime == elapsed
    ensures elapsed > MaxDelta ==> Step(t, elapsed).deltaTime == MaxDelta
  {
  }

  /** The clock after one `Update` per entry of `frames`, in order. */
  function Run(t: TimeState, frames: seq<real>): TimeState
    decreases |frames|
  {
    if |frames| == 0 then t else Step(Run(t, frames[..|frames| - 1]), frames[|frames| - 1])
  }

  /** Over `n` frames of an initialised clock the frame counter grows by `n`,
      the time scale stays, and the unscaled total grows by at least
      `n * MinDelta` and at most `n * MaxDelta`. */
  lemma {:induction false} RunBounds(t: TimeState, frames: seq<real>)
    requires t.initialized
    ensures Run(t, frames).initialized
    ensures Run(t, frames).timeScale == t.timeScale
    ensures Run(t, frames).frameCount == t.frameCount + |frames|
    ensures t.unscaledTotalTime + |frames| as real * MinDelta
            <= Run(t, frames).unscaledTotalTime
            <= t.unscaledTotalTime + |frames| as real * MaxDelta
    decreases |frames|
  {
    if |frames| > 0 {
      RunBounds(t, frames[..|frames| - 1]);
      StepDelta(Run(t, frames[..|frames| - 1]), frames[|frames| - 1]);
    }
  }

  /** A run of an initialised clock keeps it initialised and keeps its time scale. */
  lemma {:induction false} RunKeepsScale(t: TimeState, frames: seq<real>)
    requires t.initialized
    ensures Run(t, frames).initialized
    ensures Run(t, frames).timeScale == t.timeScale
    decreases |frames|
  {
    if |frames| > 0 {
      RunKeepsScale(t, frames[..|frames| - 1]);
    }
  }

  /** `r` is `t` some frames later at `t`'s time scale: the scaled total has
      moved by exactly the scale times what the unscaled total moved by. */
  ghost predicate ScaledSince(t: TimeState, r: TimeState)
  {
    r.totalTime - t.totalTime == t.timeScale * (r.unscaledTotalTime - t.unscaledTotalTime)
  }

  /** With the time scale fixed over a run, the scaled total moves by exactly
      the scale times what the unscaled total moves by. */
  lemma {:induction false} RunScaledTotal(t: TimeState, frames: seq<real>)
    requires t.initialized
    ensures ScaledSince(t, Run(t, frames))
    decreases |frames|
  {
    if |frames| == 0 {
      ScaledSum(t, t, t);
    } else {
      RunScaledTotal(t, frames[..|frames| - 1]);
      RunKeepsScale(t, frames[..|frames| - 1]);
      ScaledStep(t, Run(t, frames[..|frames| - 1]), frames[|frames| - 1]);
    }
  }

  /** One more frame extends a scaled run. */
  lemma ScaledStep(t: TimeState, p: TimeState, elapsed: real)
    requires p.initialized && p.timeScale == t.timeScale
    requires ScaledSince(t, p)
    ensures ScaledSince(t, Step(p, elapsed))
  {
    ScaledSum(t, p, Step(p, elapsed));
  }

  lemma ScaledSum(t: TimeState, p: TimeState, r: TimeState)
    requires p.totalTime - t.totalTime == t.timeScale * (p.unscaledTotalTime - t.unscaledTotalTime)
    requires r.totalTime - p.totalTime == t.timeScale * (r.unscaledTotalTime - p.unscaledTotalTime)
    ensures r.totalTime - t.totalTime == t.timeScale * (r.unscaledTotalTime - t.unscaledTotalTime)
  {
  }

  /** A paused clock (time scale 0) keeps its scaled total while frames go by;
      at scale 1 both totals move together. */
  lemma RunPaused(t: TimeState, frames: seq<real>)
    requires t.initialized
    ensures t.timeScale == 0.0 ==> Run(t, frames).totalTime == t.totalTime
    ensures t.timeScale == 1.0 ==>
      Run(t, frames).totalTime - t.totalTime == Run(t, frames).unscaledTotalTime - t.unscaledTotalTime
  {
    RunScaledTotal(t, frames);
  }

  /** The first update of a never-initialised clock is the first update after `Init`. */
  lemma FirstStepInitialises(t: TimeState, elapsed: real)
    requires !t.initialized
    ensures Step(t, elapsed) == Step(InitState(), elapsed)
    ensures Step(t, elapsed).timeScale == 1.0 && Step(t, elapsed).frameCount == 1
    ensures Step(t, elapsed).totalTime == Step(t, elapsed).unscaledTotalTime == Step(t, elapsed).deltaTime
  {
  }

  /** The timing fields of the engine (the static members of `Time`). */
  class Clock {
    var deltaTime: real
    var timeScale: real
    var totalTime: real
    var unscaledTotalTime: real
    var frameCount: int
    var initialized: bool

    function State(): TimeState
      reads this
    {
      TimeState(deltaTime, timeScale, totalTime, unscaledTotalTime, frameCount, initialized)
    }

    ghost predicate Valid()
      reads this
    {
      Consistent(State())
    }

    /** The static initialisers. */
    constructor ()
      ensures State() == Defaults() && Valid()
    {
      deltaTime := DefaultDelta;
      timeScale := 1.0;
      totalTime := 0.0;
      unscaledTotalTime := 0.0;
      frameCount := 0;
      initialized := false;
    }

    /** `Time::Init` (Time.cpp:11-19). */
    method Init()
      modifies this
      ensures State() == InitState() && Valid()
    {
      deltaTime := DefaultDelta;
      timeScale := 1.0;
      totalTime := 0.0;
      unscaledTotalTime := 0.0;
      frameCount := 0;
      initialized := true;
    }

    /** `Time::Update` (Time.cpp:21-38), `elapsed` seconds after the previous frame. */
    method Update(elapsed: real)
      modifies this
      ensures State() == Step(old(State()), elapsed)
      ensures old(Valid()) ==> Valid()
    {
      if Valid() {
        StepConsistent(State(), elapsed);
      }
      if !initialized {
        Init();
      }
      deltaTime := Clamp(elapsed, MinDelta, MaxDelta);
      unscaledTotalTime := unscaledTotalTime + deltaTime;
      totalTime := totalTime + deltaTime * timeScale;
      frameCount := frameCount + 1;
    }

    /** `Time::SetTimeScale`: only the scale changes. */
    method SetTimeScale(scale: real)
      modifies this
      ensures State() == old(State()).(timeScale := scale)
      ensures old(Valid()) ==> Valid()
    {
      timeScale := scale;
    }

    /** `Time::GetDeltaTime`: the delta the game sees, scaled; zero while paused. */
    function GetDeltaTime(): (d: real)
      reads this
      ensures timeScale == 0.0 ==> d == 0.0
      ensures timeScale == 1.0 ==> d == deltaTime
    {
      deltaTime * timeScale
    }

    /** `Time::GetUnscaledDeltaTime`: always inside the clamp bounds. */
    function GetUnscaledDeltaTime(): (d: real)
      reads this
      ensures Valid() ==> MinDelta <= d <= MaxDelta
    {
      deltaTime
    }

    function GetTimeScale(): real
      reads this
    {
      timeScale
    }

    function GetTotalTime(): real
      reads this
    {
      totalTime
    }

    /** `Time::GetUnscaledTotalTime`: at least `MinDelta` and at most
        `MaxDelta` per counted frame. */
    function GetUnscaledTotalTime(): (u: real)
      reads this
      ensures Valid() ==> GetFrameCount() as real * MinDelta <= u <= GetFrameCount() as real * MaxDelta
    {
      unscaledTotalTime
    }

    /** `Time::GetFixedDeltaTime`: sixty physics steps per second. */
    function GetFixedDeltaTime(): (f: real)
      ensures 60.0 * f == 1.0
    {
      FixedDeltaTime
    }

    /** `Time::GetFrameCount`: never negative. */
    function GetFrameCount(): (n: int)
      reads this
      ensures Valid() ==> n >= 0
    {
      frameCount
    }
  }
}
