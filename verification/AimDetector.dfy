/** aim_detector.gd: a leaky score between 0 and 100. The angle tests of the engine
    arrive as two booleans; arithmetic is over exact reals. */
module AimDetector {

  /** `snapped`: turned more than 18 degrees onto a visible target. `onTarget`: moved
      while within 0.12 degrees of one. `delta`: seconds since the last frame. */
  datatype Frame = Frame(snapped: bool, onTarget: bool, delta: real)

  datatype Level = Normal | Observing | Suspicious | HighSuspicion

  datatype State = State(hasPrevious: bool, score: real, snaps: nat, samples: nat, tracking: real)

  const START: State := State(false, 0.0, 0, 0, 0.0)

  function Clamp(x: real): real {
    if x < 0.0 then 0.0 else if x > 100.0 then 100.0 else x
  }

  function Tracked(s: State, f: Frame): real {
    if !s.hasPrevious || f.delta <= 0.0 then s.tracking
    else if f.onTarget then s.tracking + f.delta
    else if s.tracking - f.delta * 2.0 > 0.0 then s.tracking - f.delta * 2.0
    else 0.0
  }

  /** 18 per snap, 8 per tracked second once a full second has been tracked. */
  function Gain(s: State, f: Frame): real {
    if !s.hasPrevious || f.delta <= 0.0 then 0.0
    else
      (if f.snapped then 18.0 else 0.0) +
      (if f.onTarget && Tracked(s, f) > 1.0 then f.delta * 8.0 else 0.0)
  }

  /** What the frame adds before clamping: the gain minus 0.7 a second. */
  function Drift(s: State, f: Frame): real {
    Gain(s, f) - f.delta * 0.7
  }

  function Step(s: State, f: Frame): State {
    State(true, Clamp(s.score + Drift(s, f)),
          s.snaps + if s.hasPrevious && f.delta > 0.0 && f.snapped then 1 else 0,
          s.samples + 1, Tracked(s, f))
  }

  function Run(s: State, frames: seq<Frame>): State {
    if frames == [] then s
    else Step(Run(s, frames[..|frames| - 1]), frames[|frames| - 1])
  }

  class Detector {
    var hasPrevious: bool
    var score: real
    var snaps: nat
    var samples: nat
    var tracking: real

    function Value(): State
      reads this
    {
      State(hasPrevious, score, snaps, samples, tracking)
    }

    constructor ()
      ensures Value() == START
    {
      hasPrevious, score, snaps, samples, tracking := false, 0.0, 0, 0, 0.0;
    }

    method Observe(f: Frame) returns (level: Level)
      modifies this
      ensures Value() == Step(old(Value()), f)
      ensures level.HighSuspicion? <==> score >= 75.0
      ensures level.Suspicious? <==> 45.0 <= score < 75.0
      ensures level.Observing? <==> 20.0 <= score < 45.0
      ensures level.Normal? <==> score < 20.0
    {
      samples := samples + 1;
      if hasPrevious && f.delta > 0.0 {
        if f.snapped {
          score := score + 18.0;
          snaps := snaps + 1;
        }
        if f.onTarget {
          tracking := tracking + f.delta;
          if tracking > 1.0 {
            score := score + f.delta * 8.0;
          }
        } else {
          tracking := if tracking - f.delta * 2.0 > 0.0 then tracking - f.delta * 2.0 else 0.0;
        }
      }
      score := Clamp(score - f.delta * 0.7);
      hasPrevious := true;
      level := Normal;
      if score >= 20.0 { level := Observing; }
      if score >= 45.0 { level := Suspicious; }
      if score >= 75.0 { level := HighSuspicion; }
    }
  }

  // ---- The history on its own: what frames k to n - 1 are worth

  /** The first frame has nothing to compare with, and a frame takes time. */
  predicate Compared(frames: seq<Frame>, i: nat)
    requires i < |frames|
  {
    i >= 1 && frames[i].delta > 0.0
  }

  function SnapAt(frames: seq<Frame>, i: nat): nat
    requires i < |frames|
  {
    if Compared(frames, i) && frames[i].snapped then 1 else 0
  }

  /** Seconds on target, or twice the seconds off it to take away. */
  function BalanceAt(frames: seq<Frame>, i: nat): real
    requires i < |frames|
  {
    if !Compared(frames, i) then 0.0 else if frames[i].onTarget then frames[i].delta else -2.0 * frames[i].delta
  }

  /** The tracked time after n frames: that balance, never below 0 on the way. */
  function Aimed(frames: seq<Frame>, n: nat): (t: real)
    requires n <= |frames|
    ensures t >= 0.0
  {
    if n == 0 then 0.0
    else
      var t := Aimed(frames, n - 1) + BalanceAt(frames, n - 1);
      if t > 0.0 then t else 0.0
  }

  /** Seconds on target while more than one second is tracked. */
  function LockedAt(frames: seq<Frame>, i: nat): real
    requires i < |frames|
  {
    if Compared(frames, i) && frames[i].onTarget && Aimed(frames, i + 1) > 1.0 then frames[i].delta else 0.0
  }

  function Snaps(frames: seq<Frame>, k: nat, n: nat): nat
    requires n <= |frames|
    decreases n
  {
    if n <= k then 0 else Snaps(frames, k, n - 1) + SnapAt(frames, n - 1)
  }

  function Balance(frames: seq<Frame>, k: nat, n: nat): real
    requires n <= |frames|
    decreases n
  {
    if n <= k then 0.0 else Balance(frames, k, n - 1) + BalanceAt(frames, n - 1)
  }

  function Locked(frames: seq<Frame>, k: nat, n: nat): real
    requires n <= |frames|
    decreases n
  {
    if n <= k then 0.0 else Locked(frames, k, n - 1) + LockedAt(frames, n - 1)
  }

  function Seconds(frames: seq<Frame>, k: nat, n: nat): real
    requires n <= |frames|
    decreases n
  {
    if n <= k then 0.0 else Seconds(frames, k, n - 1) + frames[n - 1].delta
  }

  function Worth(frames: seq<Frame>, k: nat, n: nat): real
    requires n <= |frames|
  {
    18.0 * Snaps(frames, k, n) as real + 8.0 * Locked(frames, k, n) - 0.7 * Seconds(frames, k, n)
  }

  function WorthAt(frames: seq<Frame>, i: nat): real
    requires i < |frames|
  {
    18.0 * SnapAt(frames, i) as real + 8.0 * LockedAt(frames, i) - 0.7 * frames[i].delta
  }

  /** No stretch of the history is worth more than the cap. */
  ghost predicate UnderCap(frames: seq<Frame>, upTo: nat)
    requires upTo <= |frames|
  {
    forall k, n :: 0 <= k <= n <= upTo ==> Worth(frames, k, n) <= 100.0
  }

  lemma RunTo(frames: seq<Frame>, n: nat)
    requires n < |frames|
    ensures Run(START, frames[..n + 1]) == Step(Run(START, frames[..n]), frames[n])
  {
    assert frames[..n + 1][..n] == frames[..n];
  }

  /** Counters and tracked time are those of the history. */
  lemma {:induction false} CountsExactly(frames: seq<Frame>, n: nat)
    requires n <= |frames|
    ensures var s := Run(START, frames[..n]);
            && s.hasPrevious == (n > 0) && s.samples == n
            && s.snaps == Snaps(frames, 0, n) && s.tracking == Aimed(frames, n)
  {
    if n > 0 {
      CountsExactly(frames, n - 1);
      RunTo(frames, n - 1);
    }
  }

  /** The tracked time is the best balance of any stretch that ends now. */
  lemma {:induction false} AimedIsBest(frames: seq<Frame>, n: nat) returns (k: nat)
    requires n <= |frames|
    ensures k <= n && Aimed(frames, n) == Balance(frames, k, n)
    ensures forall j :: 0 <= j <= n ==> Balance(frames, j, n) <= Aimed(frames, n)
  {
    if n == 0 {
      k := 0;
    } else {
      k := AimedIsBest(frames, n - 1);
      if Aimed(frames, n) != Aimed(frames, n - 1) + BalanceAt(frames, n - 1) {
        k := n;
      }
      forall j | 0 <= j <= n ensures Balance(frames, j, n) <= Aimed(frames, n) {
        if j < n {
          assert Balance(frames, j, n - 1) <= Aimed(frames, n - 1);
        }
      }
    }
  }

  /** One frame more, in terms of the history: what it is worth is added, between 0 and 100. */
  lemma ScoreStep(frames: seq<Frame>, n: nat)
    requires n < |frames|
    ensures var sum := Run(START, frames[..n]).score + WorthAt(frames, n);
            Run(START, frames[..n + 1]).score == if sum < 0.0 then 0.0 else if sum > 100.0 then 100.0 else sum
    ensures forall k :: 0 <= k <= n ==> Worth(frames, k, n + 1) == Worth(frames, k, n) + WorthAt(frames, n)
  {
    RunTo(frames, n);
    CountsExactly(frames, n);
    CountsExactly(frames, n + 1);
  }

  /** The score is bounded by what some stretch up to now is worth, and is exactly that
      while none is worth more than the cap. */
  lemma {:induction false} ScoreEarned(frames: seq<Frame>, n: nat) returns (k: nat)
    requires n <= |frames|
    ensures k <= n && 0.0 <= Run(START, frames[..n]).score <= Worth(frames, k, n) && Run(START, frames[..n]).score <= 100.0
    ensures UnderCap(frames, n) ==> Run(START, frames[..n]).score == Worth(frames, k, n)
  {
    if n == 0 {
      k := 0;
    } else {
      k := ScoreEarned(frames, n - 1);
      ScoreStep(frames, n - 1);
      assert Worth(frames, k, n) == Worth(frames, k, n - 1) + WorthAt(frames, n - 1);
      if Run(START, frames[..n]).score == 0.0 {
        k := n;
      }
    }
  }

  lemma {:induction false} ScoreCovers(frames: seq<Frame>, k: nat, n: nat)
    requires k <= n <= |frames| && UnderCap(frames, n)
    ensures Worth(frames, k, n) <= Run(START, frames[..n]).score
  {
    if k < n {
      ScoreCovers(frames, k, n - 1);
      ScoreStep(frames, n - 1);
      var best := ScoreEarned(frames, n - 1);
      assert Worth(frames, best, n) == Worth(frames, best, n - 1) + WorthAt(frames, n - 1);
    } else {
      var best := ScoreEarned(frames, n);
    }
  }

  /** So the score is at most the best stretch of the history that ends now (18 a snap, 8 a
      second of tracking beyond the warm-up, less 0.7 a second), and exactly that as long as
      no stretch was ever worth more than 100. */
  lemma ScoreIsBestSuffix(frames: seq<Frame>)
    ensures var n, score := |frames|, Run(START, frames).score;
            && 0.0 <= score <= 100.0
            && (exists k :: 0 <= k <= n && score <= Worth(frames, k, n))
            && (UnderCap(frames, n) ==>
                  && (forall k :: 0 <= k <= n ==> Worth(frames, k, n) <= score)
                  && exists k :: 0 <= k <= n && Worth(frames, k, n) == score)
  {
    var n := |frames|;
    assert frames[..n] == frames;
    var k := ScoreEarned(frames, n);
    if UnderCap(frames, n) {
      forall j | 0 <= j <= n ensures Worth(frames, j, n) <= Run(START, frames).score {
        ScoreCovers(frames, j, n);
      }
    }
  }

  /** One snap on the second frame of a game at 60 frames a second. */
  lemma OneSnap()
    ensures var frames := [Frame(false, false, 0.016), Frame(true, false, 0.016)];
            Run(START, frames).score == 17.9888
  {
    var frames := [Frame(false, false, 0.016), Frame(true, false, 0.016)];
    RunTo(frames, 0);
    RunTo(frames, 1);
    assert frames[..2] == frames && frames[..0] == [];
  }

  function Elapsed(frames: seq<Frame>): real {
    if frames == [] then 0.0 else Elapsed(frames[..|frames| - 1]) + frames[|frames| - 1].delta
  }

  ghost predicate ClockForward(frames: seq<Frame>) {
    forall i :: 0 <= i < |frames| ==> frames[i].delta >= 0.0
  }

  /** From any state the score climbs by at most 18 a snap and 7.3 a second. */
  lemma {:induction false} ClimbBound(s: State, frames: seq<Frame>)
    requires ClockForward(frames) && s.score >= 0.0
    ensures Elapsed(frames) >= 0.0 && Run(s, frames).score >= 0.0
    ensures Run(s, frames).snaps >= s.snaps
    ensures Run(s, frames).score <= s.score + 18.0 * (Run(s, frames).snaps - s.snaps) as real + 7.3 * Elapsed(frames)
  {
    if frames != [] {
      var n := |frames| - 1;
      ClimbBound(s, frames[..n]);
    }
  }

  /** Without a snap, going from 0 to HighSuspicion takes more than ten seconds. */
  lemma SlowClimb(s: State, frames: seq<Frame>)
    requires ClockForward(frames) && s.score == 0.0
    requires Run(s, frames).snaps == s.snaps && Run(s, frames).score >= 75.0
    ensures Elapsed(frames) > 10.0
  {
    ClimbBound(s, frames);
  }
}
