/** Rate: the per-channel limit of 64 frames and 65536 bytes, refilled by 512 frames
    and 524288 bytes a second. Time and levels are exact reals. */
module TokenBucket {

  const FRAME_CAP := 64.0
  const FRAME_RATE := 512.0
  const BYTE_CAP := 65536.0
  const BYTE_RATE := 524288.0

  datatype Tokens = Tokens(at: real, frames: real, bytes: real)

  datatype Call = Call(at: real, size: nat)

  function Min(a: real, b: real): real {
    if b < a then b else a
  }

  function Max(a: real, b: real): real {
    if b > a then b else a
  }

  function Created(now: real): Tokens {
    Tokens(now, FRAME_CAP, BYTE_CAP)
  }

  function Refilled(t: Tokens, now: real): Tokens {
    var delta := Max(0.0, now - t.at);
    Tokens(now, Min(FRAME_CAP, t.frames + delta * FRAME_RATE), Min(BYTE_CAP, t.bytes + delta * BYTE_RATE))
  }

  /** A refused call has already moved the clock reading and the refill. */
  function TakeStep(t: Tokens, call: Call): (r: (bool, Tokens)) {
    var full := Refilled(t, call.at);
    if full.frames < 1.0 || full.bytes < call.size as real then (false, full)
    else (true, Tokens(full.at, full.frames - 1.0, full.bytes - call.size as real))
  }

  /** Every call since creation: which were accepted, and the tokens left. */
  function Run(created: real, calls: seq<Call>): (r: (seq<bool>, Tokens))
    ensures |r.0| == |calls|
  {
    if calls == [] then ([], Created(created))
    else
      var (before, t) := Run(created, calls[..|calls| - 1]);
      var (ok, t') := TakeStep(t, calls[|calls| - 1]);
      (before + [ok], t')
  }

  class Rate {
    var at: real
    var frames: real
    var bytes: real

    function Value(): Tokens
      reads this
    {
      Tokens(at, frames, bytes)
    }

    constructor (now: real)
      ensures Value() == Created(now)
    {
      at, frames, bytes := now, FRAME_CAP, BYTE_CAP;
    }

    method Take(now: real, size: nat) returns (ok: bool)
      modifies this
      ensures (ok, Value()) == TakeStep(old(Value()), Call(now, size))
    {
      var delta := Max(0.0, now - at);
      at := now;
      frames := Min(FRAME_CAP, frames + delta * FRAME_RATE);
      bytes := Min(BYTE_CAP, bytes + delta * BYTE_RATE);
      if frames < 1.0 || bytes < size as real {
        return false;
      }
      frames := frames - 1.0;
      bytes := bytes - size as real;
      return true;
    }
  }

  // One bucket in isolation, measured in the seconds its tokens take to refill:
  // `times` are the clock readings, `costs` what each call took away (0 when it
  // was refused).

  function Last(created: real, times: seq<real>): real {
    if times == [] then created else times[|times| - 1]
  }

  ghost predicate Nondecreasing(created: real, times: seq<real>)
    decreases |times|
  {
    times == [] ||
    var init := times[..|times| - 1];
    Nondecreasing(created, init) && Last(created, init) <= times[|times| - 1]
  }

  function Level(cap: real, created: real, times: seq<real>, costs: seq<real>): real
    requires |times| == |costs|
    decreases |times|, 0
  {
    if times == [] then cap
    else
      var n := |times| - 1;
      Refill(cap, created, times[..n], costs[..n], times[n]) - costs[n]
  }

  function Refill(cap: real, created: real, times: seq<real>, costs: seq<real>, now: real): real
    requires |times| == |costs|
    decreases |times|, 1
  {
    Min(cap, Level(cap, created, times, costs) + Max(0.0, now - Last(created, times)))
  }

  /** Total taken at readings `since` or later. */
  function Spent(times: seq<real>, costs: seq<real>, since: real): real
    requires |times| == |costs|
  {
    if times == [] then 0.0
    else
      var n := |times| - 1;
      Spent(times[..n], costs[..n], since) + if times[n] >= since then costs[n] else 0.0
  }

  /** `s` is the creation time, an earlier reading, or the present one. */
  ghost predicate Reading(created: real, times: seq<real>, now: real, s: real) {
    s == created || s == now || s in times
  }

  function Allowance(cap: real, times: seq<real>, costs: seq<real>, now: real, s: real): real
    requires |times| == |costs|
  {
    cap + (now - s) - Spent(times, costs, s)
  }

  lemma {:induction false} NotAfterLast(created: real, times: seq<real>, s: real)
    requires Nondecreasing(created, times) && (s == created || s in times)
    ensures s <= Last(created, times)
  {
    if times != [] {
      var init := times[..|times| - 1];
      if s == created || s in init {
        NotAfterLast(created, init, s);
      }
    }
  }

  lemma {:induction false} NothingLater(created: real, times: seq<real>, costs: seq<real>, s: real)
    requires |times| == |costs| && Nondecreasing(created, times) && Last(created, times) < s
    ensures Spent(times, costs, s) == 0.0
  {
    if times != [] {
      var n := |times| - 1;
      NothingLater(created, times[..n], costs[..n], s);
    }
  }

  /** The level never exceeds the allowance of any window ending now. */
  lemma {:induction false} LevelBelow(cap: real, created: real, times: seq<real>, costs: seq<real>, now: real, s: real)
    requires |times| == |costs|
    requires Nondecreasing(created, times) && Last(created, times) <= now
    requires Reading(created, times, now, s)
    ensures Refill(cap, created, times, costs, now) <= Allowance(cap, times, costs, now, s)
    decreases |times|
  {
    if times != [] {
      var n := |times| - 1;
      var last := times[n];
      if s == now && last < now {
        NothingLater(created, times, costs, now);
      } else {
        NotAfterLast(created, times, if s == now then last else s);
        assert times == times[..n] + [last];
        LevelBelow(cap, created, times[..n], costs[..n], last, s);
      }
    }
  }

  /** And it equals the allowance of one of them. */
  lemma {:induction false} LevelReached(cap: real, created: real, times: seq<real>, costs: seq<real>, now: real)
    returns (s: real)
    requires |times| == |costs|
    requires forall i :: 0 <= i < |costs| ==> costs[i] >= 0.0
    requires Nondecreasing(created, times) && Last(created, times) <= now
    ensures Reading(created, times, now, s)
    ensures Refill(cap, created, times, costs, now) == Allowance(cap, times, costs, now, s)
    decreases |times|
  {
    if times == [] {
      s := now;
    } else {
      var n := |times| - 1;
      var last := times[n];
      s := LevelReached(cap, created, times[..n], costs[..n], last);
      if last < now && Refill(cap, created, times, costs, now) == cap {
        s := now;
        NothingLater(created, times, costs, now);
      } else {
        NotAfterLast(created, times, s);
      }
    }
  }

  // Both buckets of Rate together.

  function Times(calls: seq<Call>): (r: seq<real>)
    ensures |r| == |calls|
  {
    seq(|calls|, i requires 0 <= i < |calls| => calls[i].at)
  }

  /** Frames (or bytes) actually charged by each call. */
  function Charged(calls: seq<Call>, oks: seq<bool>, inBytes: bool): (r: seq<real>)
    requires |oks| == |calls|
    ensures |r| == |calls| && forall i :: 0 <= i < |r| ==> r[i] >= 0.0
  {
    seq(|calls|, i requires 0 <= i < |calls| =>
      if !oks[i] then 0.0 else if inBytes then calls[i].size as real else 1.0)
  }

  /** The same charges in seconds of refill. */
  function InSeconds(costs: seq<real>, inBytes: bool): (r: seq<real>)
    ensures |r| == |costs|
  {
    seq(|costs|, i requires 0 <= i < |costs| => if inBytes then costs[i] / 524288.0 else costs[i] / 512.0)
  }

  lemma {:induction false} SpentInSeconds(times: seq<real>, costs: seq<real>, inBytes: bool, s: real)
    requires |times| == |costs|
    ensures Spent(times, InSeconds(costs, inBytes), s) * (if inBytes then 524288.0 else 512.0) == Spent(times, costs, s)
  {
    if times != [] {
      var n := |times| - 1;
      SpentInSeconds(times[..n], costs[..n], inBytes, s);
      assert InSeconds(costs, inBytes)[..n] == InSeconds(costs[..n], inBytes);
    }
  }

  function FrameCosts(calls: seq<Call>, oks: seq<bool>): (r: seq<real>)
    requires |oks| == |calls|
    ensures |r| == |calls|
  {
    InSeconds(Charged(calls, oks, false), false)
  }

  function ByteCosts(calls: seq<Call>, oks: seq<bool>): (r: seq<real>)
    requires |oks| == |calls|
    ensures |r| == |calls|
  {
    InSeconds(Charged(calls, oks, true), true)
  }

  lemma {:induction false} RunLevels(created: real, calls: seq<Call>)
    ensures var (oks, t) := Run(created, calls);
            && t.at == Last(created, Times(calls))
            && t.frames == 512.0 * Level(0.125, created, Times(calls), FrameCosts(calls, oks))
            && t.bytes == 524288.0 * Level(0.125, created, Times(calls), ByteCosts(calls, oks))
  {
    if calls != [] {
      var n := |calls| - 1;
      RunLevels(created, calls[..n]);
      var oks := Run(created, calls).0;
      assert oks[..n] == Run(created, calls[..n]).0;
      assert Times(calls)[..n] == Times(calls[..n]);
      assert FrameCosts(calls, oks)[..n] == FrameCosts(calls[..n], oks[..n]);
      assert ByteCosts(calls, oks)[..n] == ByteCosts(calls[..n], oks[..n]);
    }
  }

  /** Frames and bytes a window from `s` to this call would hold with it included. */
  ghost predicate WindowFits(calls: seq<Call>, oks: seq<bool>, call: Call, s: real)
    requires |oks| == |calls|
  {
    && Spent(Times(calls), Charged(calls, oks, false), s) + 1.0 <= 64.0 + 512.0 * (call.at - s)
    && Spent(Times(calls), Charged(calls, oks, true), s) + call.size as real <= 65536.0 + 524288.0 * (call.at - s)
  }

  /** With a clock that never goes back, a call is accepted if and only if no window
      from creation or any reading up to now would exceed 64 + 512/s frames or
      65536 + 524288/s bytes with it included. */
  lemma AcceptedExactly(created: real, calls: seq<Call>, call: Call)
    requires Nondecreasing(created, Times(calls)) && Last(created, Times(calls)) <= call.at
    ensures var (oks, t) := Run(created, calls);
            TakeStep(t, call).0 <==>
            forall s :: Reading(created, Times(calls), call.at, s) ==> WindowFits(calls, oks, call, s)
  {
    var (oks, t) := Run(created, calls);
    var times := Times(calls);
    RunLevels(created, calls);
    var full := Refilled(t, call.at);
    forall s | Reading(created, times, call.at, s)
      ensures full.frames >= 1.0 && full.bytes >= call.size as real ==> WindowFits(calls, oks, call, s)
    {
      LevelBelow(0.125, created, times, FrameCosts(calls, oks), call.at, s);
      LevelBelow(0.125, created, times, ByteCosts(calls, oks), call.at, s);
      SpentInSeconds(times, Charged(calls, oks, false), false, s);
      SpentInSeconds(times, Charged(calls, oks, true), true, s);
    }
    var f := LevelReached(0.125, created, times, FrameCosts(calls, oks), call.at);
    var b := LevelReached(0.125, created, times, ByteCosts(calls, oks), call.at);
    SpentInSeconds(times, Charged(calls, oks, false), false, f);
    SpentInSeconds(times, Charged(calls, oks, true), true, b);
    assert Reading(created, times, call.at, f) && Reading(created, times, call.at, b);
    if full.frames < 1.0 {
      assert !WindowFits(calls, oks, call, f);
    }
    if full.bytes < call.size as real {
      assert !WindowFits(calls, oks, call, b);
    }
  }
}
