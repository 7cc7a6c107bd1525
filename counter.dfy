/** `AnimatedCounter` (src/components/effects.tsx): on every animation frame the
    counter shows `floor(progress * target)`, where progress is the elapsed
    fraction of `duration` seconds capped at 1, and it asks for another frame
    until progress reaches 1. Frame timestamps are parameters. */
module Counter {

  import opened JsMath

  datatype Option<T> = None | Some(value: T)

  /** Milliseconds per second: `duration` is in seconds, timestamps in milliseconds. */
  const MS_PER_SECOND: real := 1000.0

  /** `Math.min((currentTime - startTime) / (duration * 1000), 1)`. */
  function Progress(elapsed: real, duration: real): (r: real)
    requires duration > 0.0
    ensures r <= 1.0
    ensures elapsed >= 0.0 ==> 0.0 <= r
    ensures r == 1.0 <==> elapsed >= duration * MS_PER_SECOND
    ensures r < 1.0 ==> r * (duration * MS_PER_SECOND) == elapsed
  {
    Min(elapsed / (duration * MS_PER_SECOND), 1.0)
  }

  /** `Math.floor(progress * target)`: the value shown for one frame. */
  function CountAt(progress: real, target: real): (r: int)
    ensures 0.0 <= progress <= 1.0 && 0.0 <= target ==> 0 <= r <= target.Floor
    ensures progress == 1.0 ==> r == target.Floor
    ensures r as real <= progress * target < r as real + 1.0
  {
    ScaledWithin(progress, target);
    (progress * target).Floor
  }

  lemma ScaledWithin(progress: real, target: real)
    ensures 0.0 <= progress <= 1.0 && 0.0 <= target ==> 0 <= (progress * target).Floor <= target.Floor
  {
    if 0.0 <= progress <= 1.0 && 0.0 <= target {
      var v := progress * target;
      ProductNonNegative(progress, target);
      ProductNonNegative(1.0 - progress, target);
      assert target - v == (1.0 - progress) * target;
      assert 0.0 <= v <= target;
      assert (v.Floor as real) <= v < (target.Floor as real) + 1.0;
    }
  }

  lemma ProductNonNegative(a: real, b: real)
    requires 0.0 <= a && 0.0 <= b
    ensures 0.0 <= a * b
  {
  }

  /** Progress never goes backwards while time moves forwards. */
  lemma ProgressMonotone(e1: real, e2: real, duration: real)
    requires duration > 0.0 && e1 <= e2
    ensures Progress(e1, duration) <= Progress(e2, duration)
  {
    var span := duration * MS_PER_SECOND;
    assert e1 / span <= e2 / span by {
      assert e2 / span - e1 / span == (e2 - e1) / span;
    }
  }

  /** For a non-negative target, the counter never counts down. */
  lemma CountMonotone(p1: real, p2: real, target: real)
    requires p1 <= p2 && 0.0 <= target
    ensures CountAt(p1, target) <= CountAt(p2, target)
  {
    var v1, v2 := p1 * target, p2 * target;
    assert v1 <= v2 by {
      ProductNonNegative(p2 - p1, target);
      assert v2 - v1 == (p2 - p1) * target;
    }
    assert (v1.Floor as real) <= v1 <= v2 < (v2.Floor as real) + 1.0;
  }

  /** A fractional target is never shown: with target 4.9 (the average rating
      on the stats section) the counter ends on 4. */
  lemma FractionalTargetEndsBelow(progress: real)
    requires 0.0 <= progress <= 1.0
    ensures CountAt(progress, 4.9) <= 4
    ensures CountAt(1.0, 4.9) == 4
    ensures (CountAt(1.0, 4.9) as real) < 4.9
  {
  }

  /** `!startTime` in JavaScript: true before the first frame, and also when the
      first frame's timestamp was 0, since 0 is falsy. */
  predicate StartUnset(startTime: Option<real>) {
    startTime.None? || startTime.value == 0.0
  }

  /** The start time the frame callback settles on after the frames `ts`: the
      first non-zero timestamp, or 0 when every timestamp so far was 0. */
  function FirstStart(ts: seq<real>): (r: real)
    requires ts != []
    ensures ts[0] != 0.0 ==> r == ts[0]
  {
    if ts[0] != 0.0 || |ts| == 1 then ts[0] else FirstStart(ts[1..])
  }

  /** `FirstStart` is one of the timestamps: the first non-zero one, and 0 only
      when all of them are 0. */
  lemma {:induction false} FirstStartIsFirstNonZero(ts: seq<real>) returns (f: nat)
    requires ts != []
    ensures f < |ts| && ts[f] == FirstStart(ts)
    ensures FirstStart(ts) != 0.0 ==> forall j :: 0 <= j < f ==> ts[j] == 0.0
    ensures FirstStart(ts) == 0.0 <==> forall j :: 0 <= j < |ts| ==> ts[j] == 0.0
  {
    if ts[0] != 0.0 || |ts| == 1 {
      f := 0;
    } else {
      var g := FirstStartIsFirstNonZero(ts[1..]);
      f := g + 1;
      assert forall j :: 1 <= j < |ts| ==> ts[j] == ts[1..][j - 1];
    }
  }

  /** One more frame: it becomes the start exactly when no earlier frame had a
      non-zero timestamp, as `if (!startTime) startTime = currentTime` does. */
  lemma {:induction false} FirstStartAppend(ts: seq<real>, t: real)
    requires ts != []
    ensures FirstStart(ts + [t]) == if FirstStart(ts) == 0.0 then t else FirstStart(ts)
  {
    assert (ts + [t])[0] == ts[0];
    if ts[0] == 0.0 && |ts| > 1 {
      assert (ts + [t])[1..] == ts[1..] + [t];
      FirstStartAppend(ts[1..], t);
    } else if ts[0] == 0.0 {
      assert (ts + [t])[1..] == [t];
    }
  }

  /** `FirstStartAppend` on the prefixes of a sequence of timestamps. */
  lemma FirstStartStep(times: seq<real>, n: nat)
    requires n < |times|
    ensures n == 0 ==> FirstStart(times[..n + 1]) == times[0]
    ensures n > 0 ==>
      FirstStart(times[..n + 1]) == if FirstStart(times[..n]) == 0.0 then times[n] else FirstStart(times[..n])
  {
    if n > 0 {
      assert times[..n + 1] == times[..n] + [times[n]];
      FirstStartAppend(times[..n], times[n]);
    }
  }

  /** After frame `n` runs, every frame before it is still short of the span,
      whether the start stayed or moved on to frame `n`. */
  lemma EarlierFramesBelow(times: seq<real>, n: nat, oldStart: real, newStart: real, span: real)
    requires 0 < n < |times| && span > 0.0
    requires forall i, j :: 0 <= i < j < |times| ==> times[i] <= times[j]
    requires forall j :: 0 <= j < n - 1 ==> times[j] - oldStart < span
    requires times[n - 1] - oldStart < span
    requires newStart == oldStart || newStart == times[n]
    ensures forall j :: 0 <= j < n ==> times[j] - newStart < span
  {
    if newStart != oldStart {
      forall j | 0 <= j < n ensures times[j] - newStart < span {
        assert times[j] <= times[n];
      }
    }
  }

  /** The state of one mounted `AnimatedCounter`: its props, the `startTime`
      closed over by the frame callback, the shown `count`, and whether a frame
      is requested. */
  class AnimatedCounter {
    const target: real
    const duration: real
    var startTime: Option<real>
    var count: int
    var framePending: bool

    ghost predicate Valid()
      reads this
    {
      duration > 0.0 && (0.0 <= target ==> 0 <= count <= target.Floor)
    }

    /** The effect: count starts at 0 and the first frame is requested. */
    constructor (target: real, duration: real)
      requires duration > 0.0
      ensures Valid()
      ensures this.target == target && this.duration == duration
      ensures startTime == None && count == 0 && framePending
    {
      this.target := target;
      this.duration := duration;
      startTime := None;
      count := 0;
      framePending := true;
    }

    /** `animate(currentTime)`: one frame of the loop. */
    method Animate(currentTime: real)
      requires Valid() && framePending
      requires startTime.Some? ==> startTime.value <= currentTime
      modifies this
      ensures Valid()
      ensures startTime == if StartUnset(old(startTime)) then Some(currentTime) else old(startTime)
      ensures count == CountAt(Progress(currentTime - startTime.value, duration), target)
      ensures framePending <==> currentTime - startTime.value < duration * MS_PER_SECOND
      ensures !framePending ==> count == target.Floor
    {
      if StartUnset(startTime) {
        startTime := Some(currentTime);
      }
      var progress := Progress(currentTime - startTime.value, duration);
      count := CountAt(progress, target);
      framePending := progress < 1.0;
    }

    /** The `requestAnimationFrame` chain, fed the timestamps of successive
        frames: frames run while one is requested. Returns how many ran. */
    method RunFrames(times: seq<real>) returns (ran: nat)
      requires Valid() && framePending && startTime == None
      requires forall i, j :: 0 <= i < j < |times| ==> times[i] <= times[j]
      modifies this
      ensures Valid()
      ensures ran <= |times|
      ensures ran == 0 <==> times == []
      ensures ran == 0 ==> startTime == None && count == old(count) && framePending
      ensures ran > 0 ==> startTime == Some(FirstStart(times[..ran]))
      ensures framePending ==> ran == |times|
      ensures !framePending ==> count == target.Floor
      ensures !framePending <==> ran > 0 && times[ran - 1] - startTime.value >= duration * MS_PER_SECOND
      ensures ran > 0 ==> forall j :: 0 <= j < ran - 1 ==> times[j] - startTime.value < duration * MS_PER_SECOND
      ensures ran > 0 ==> count == CountAt(Progress(times[ran - 1] - startTime.value, duration), target)
    {
      ran := 0;
      while ran < |times| && framePending
        invariant Valid()
        invariant ran <= |times|
        invariant ran == 0 ==> framePending && startTime == None && count == old(count)
        invariant ran > 0 ==> startTime == Some(FirstStart(times[..ran]))
        invariant ran > 0 ==> startTime.value <= times[ran - 1]
        invariant !framePending ==> count == target.Floor
        invariant !framePending <==> ran > 0 && times[ran - 1] - startTime.value >= duration * MS_PER_SECOND
        invariant ran > 0 ==> forall j :: 0 <= j < ran - 1 ==> times[j] - startTime.value < duration * MS_PER_SECOND
        invariant ran > 0 ==> count == CountAt(Progress(times[ran - 1] - startTime.value, duration), target)
      {
        ghost var before := startTime;
        FirstStartStep(times, ran);
        Animate(times[ran]);
        if ran > 0 {
          EarlierFramesBelow(times, ran, before.value, startTime.value, duration * MS_PER_SECOND);
        }
        ran := ran + 1;
      }
    }
  }
}
