/**
  The fire-cooldown state machine of the player: a latch set by pressing the
  attack button and cleared by releasing it, and a per-frame gate that fires
  when the latch is set and at least `FireRate` seconds have passed since the
  previous shot (the boundary is inclusive). The machine is given here as pure
  functions over a `FireState` and over traces of input events; the class in
  module Player keeps its fields equal to `Run` over the inputs it has seen.
 */
module FireControl {

  /** Minimum time between two shots, in seconds (`_fireRate`). */
  const FireRate: real := 0.3

  datatype FireState = FireState(isShooting: bool, lastShotTime: real)

  /** The state of a freshly created player: not holding fire, last shot at time 0. */
  const Initial: FireState := FireState(false, 0.0)

  /** What can happen to the fire state: the attack action is performed (pressed)
      or cancelled (released), or a frame runs at game time `now`. */
  datatype Input = Press | Release | Tick(now: real)

  /** The condition of the per-frame gate. */
  predicate Ready(s: FireState, now: real) {
    s.isShooting && now - s.lastShotTime >= FireRate
  }

  /** One input applied to the fire state: press and release only move the latch,
      a frame only moves the last-shot time, and only when the gate is ready. */
  function Step(s: FireState, e: Input): (r: FireState)
    ensures e.Press? ==> r.isShooting
    ensures e.Release? ==> !r.isShooting
    ensures !e.Tick? ==> r.lastShotTime == s.lastShotTime
    ensures e.Tick? ==> r.isShooting == s.isShooting
    ensures e.Tick? && Ready(s, e.now) ==> r.lastShotTime == e.now
    ensures e.Tick? && !Ready(s, e.now) ==> r == s
  {
    match e
    case Press => s.(isShooting := true)
    case Release => s.(isShooting := false)
    case Tick(now) => if Ready(s, now) then s.(lastShotTime := now) else s
  }

  /** The shot this input causes, if any: the time of a firing frame. */
  function Fired(s: FireState, e: Input): seq<real> {
    if e.Tick? && Ready(s, e.now) then [e.now] else []
  }

  /** The fire state after a trace of inputs. Its last-shot time is the starting
      one or the time of some frame of the trace. */
  function Run(s: FireState, es: seq<Input>): (r: FireState)
    ensures r.lastShotTime == s.lastShotTime || Tick(r.lastShotTime) in es
    decreases |es|
  {
    if es == [] then s else Run(Step(s, es[0]), es[1..])
  }

  /** The times of the shots fired along a trace of inputs, in order. A trace fires
      at most once per input, and every shot time is the time of one of its frames. */
  function ShotsOf(s: FireState, es: seq<Input>): (h: seq<real>)
    ensures |h| <= |es|
    ensures forall i :: 0 <= i < |h| ==> Tick(h[i]) in es
    decreases |es|
  {
    if es == [] then [] else Fired(s, es[0]) + ShotsOf(Step(s, es[0]), es[1..])
  }

  /** Consecutive shots are at least `FireRate` apart. */
  ghost predicate Spaced(h: seq<real>) {
    forall i :: 0 < i < |h| ==> h[i] - h[i - 1] >= FireRate
  }

  /** A frame fires exactly when the latch is set and the elapsed time reaches
      `FireRate`; a firing frame records `now`, a non-firing one keeps the old time. */
  lemma FireIffReady(s: FireState, now: real)
    ensures ShotsOf(s, [Tick(now)]) == (if s.isShooting && now - s.lastShotTime >= FireRate then [now] else [])
    ensures Run(s, [Tick(now)]).lastShotTime == (if s.isShooting && now - s.lastShotTime >= FireRate then now else s.lastShotTime)
    ensures Run(s, [Tick(now)]).isShooting == s.isShooting
  {
  }

  /** The cooldown boundary is inclusive: while holding, a frame exactly
      `FireRate` after the last shot fires, and any earlier frame does not. */
  lemma BoundaryInclusive(s: FireState, now: real)
    requires s.isShooting
    ensures Ready(s, s.lastShotTime + FireRate)
    ensures now < s.lastShotTime + FireRate ==> !Ready(s, now)
  {
  }

  /** Press sets the latch, release clears it, and neither touches the time of the last shot. */
  lemma LatchKeepsCooldown(s: FireState)
    ensures Step(s, Press) == FireState(true, s.lastShotTime)
    ensures Step(s, Release) == FireState(false, s.lastShotTime)
  {
  }

  /** Any run of presses and releases, however long, fires nothing and leaves the
      cooldown as it was; only the last of them decides the latch. */
  lemma {:induction false} CooldownSurvivesLatching(s: FireState, es: seq<Input>)
    requires forall k :: 0 <= k < |es| ==> !es[k].Tick?
    ensures ShotsOf(s, es) == []
    ensures Run(s, es).lastShotTime == s.lastShotTime
    ensures Run(s, es).isShooting == (if es == [] then s.isShooting else es[|es| - 1].Press?)
    decreases |es|
  {
    if es != [] {
      CooldownSurvivesLatching(Step(s, es[0]), es[1..]);
    }
  }

  /** Along any trace, consecutive shots are at least `FireRate` apart, the first
      shot is at least `FireRate` after the starting last-shot time, and the final
      state's last-shot time is the time of the last shot (or the starting one if
      nothing fired). No assumption that time moves forward is needed. */
  lemma {:induction false} TraceSpaced(s: FireState, es: seq<Input>)
    ensures Spaced(ShotsOf(s, es))
    ensures ShotsOf(s, es) == [] ==> Run(s, es).lastShotTime == s.lastShotTime
    ensures ShotsOf(s, es) != [] ==>
              ShotsOf(s, es)[0] >= s.lastShotTime + FireRate &&
              Run(s, es).lastShotTime == ShotsOf(s, es)[|ShotsOf(s, es)| - 1]
    decreases |es|
  {
    if es != [] {
      var s1 := Step(s, es[0]);
      TraceSpaced(s1, es[1..]);
      var rest := ShotsOf(s1, es[1..]);
      var h := ShotsOf(s, es);
      assert h == Fired(s, es[0]) + rest;
      if Fired(s, es[0]) != [] {
        assert s1.lastShotTime == es[0].now;
        forall i | 0 < i < |h| ensures h[i] - h[i - 1] >= FireRate {
          if i > 1 {
            assert h[i] == rest[i - 1] && h[i - 1] == rest[i - 2];
          }
        }
      } else {
        assert h == rest;
      }
    }
  }

  /** Over a spaced history, the k-th shot after the i-th is at least k times the
      fire rate later. */
  lemma {:induction false} SpacedPairwise(h: seq<real>, i: nat, j: nat)
    requires Spaced(h)
    requires i <= j < |h|
    ensures h[j] - h[i] >= (j - i) as real * FireRate
    decreases j - i
  {
    if i < j {
      SpacedPairwise(h, i, j - 1);
      assert h[j] - h[j - 1] >= FireRate;
    }
  }

  /** From the initial state, shot number k (counting from 0) fires no earlier than
      (k + 1) * FireRate: in particular no shot fires before 0.3 seconds of game time. */
  lemma NoShotBeforeCooldown(es: seq<Input>, k: nat)
    requires k < |ShotsOf(Initial, es)|
    ensures ShotsOf(Initial, es)[k] >= (k + 1) as real * FireRate
    ensures ShotsOf(Initial, es)[k] >= FireRate
  {
    TraceSpaced(Initial, es);
    SpacedPairwise(ShotsOf(Initial, es), 0, k);
  }

  /** Everything the shot history of a trace from the initial state guarantees:
      consecutive shots are spaced, shot k fires no earlier than (k + 1) * FireRate,
      and the last-shot time is that of the last shot, or 0 if none fired. */
  lemma ShotHistory(es: seq<Input>)
    ensures Spaced(ShotsOf(Initial, es))
    ensures forall k :: 0 <= k < |ShotsOf(Initial, es)| ==> ShotsOf(Initial, es)[k] >= (k + 1) as real * FireRate
    ensures Run(Initial, es).lastShotTime ==
              (if ShotsOf(Initial, es) == [] then 0.0 else ShotsOf(Initial, es)[|ShotsOf(Initial, es)| - 1])
  {
    TraceSpaced(Initial, es);
    forall k | 0 <= k < |ShotsOf(Initial, es)| ensures ShotsOf(Initial, es)[k] >= (k + 1) as real * FireRate {
      NoShotBeforeCooldown(es, k);
    }
  }

  /** `st` and `h` are the fire state and the shot history after trace `es` from
      the initial state, with the guarantees of `ShotHistory` attached. */
  ghost predicate Consistent(st: FireState, h: seq<real>, es: seq<Input>) {
    && st == Run(Initial, es)
    && h == ShotsOf(Initial, es)
    && Spaced(h)
    && (forall k :: 0 <= k < |h| ==> h[k] >= (k + 1) as real * FireRate)
    && st.lastShotTime == (if h == [] then 0.0 else h[|h| - 1])
  }

  /** One more input keeps the fire state and the shot history consistent with the trace. */
  lemma ConsistentStep(st: FireState, h: seq<real>, es: seq<Input>, e: Input)
    requires Consistent(st, h, es)
    ensures Consistent(Step(st, e), h + Fired(st, e), es + [e])
  {
    RunAppend(Initial, es, e);
    ShotHistory(es + [e]);
  }

  /** Appending one input to a trace: the state is one more `Step`, and the shot
      history grows by what that input fires. */
  lemma {:induction false} RunAppend(s: FireState, es: seq<Input>, e: Input)
    ensures Run(s, es + [e]) == Step(Run(s, es), e)
    ensures ShotsOf(s, es + [e]) == ShotsOf(s, es) + Fired(Run(s, es), e)
    decreases |es|
  {
    if es == [] {
      assert [e][1..] == [];
    } else {
      assert (es + [e])[0] == es[0];
      assert (es + [e])[1..] == es[1..] + [e];
      RunAppend(Step(s, es[0]), es[1..], e);
    }
  }

  /** Holding fire from game start with frames at 0, 0.1, 0.3, 0.4 and 0.6 fires at
      0.3 and 0.6 only: the first frame does not fire, because the last-shot time
      starts at 0; holding re-fires at the configured rate. */
  lemma HoldFromStart()
    ensures ShotsOf(Initial, [Press, Tick(0.0), Tick(0.1), Tick(0.3), Tick(0.4), Tick(0.6)]) == [0.3, 0.6]
  {
  }

  /** A shot at 0.3, a release at 0.4 and a re-press at 0.5: the frame at 0.5 is
      still refused and the frame at 0.6 fires, since the cooldown is not reset by
      release or press. */
  lemma ReleaseAndRepress()
    ensures ShotsOf(Initial, [Press, Tick(0.3), Release, Tick(0.4), Press, Tick(0.5), Tick(0.6)]) == [0.3, 0.6]
  {
  }
}
