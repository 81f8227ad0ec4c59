/**
 * The frame-time averager: a fixed window of the most recent frame times in a circular
 * buffer, and their mean. Doubles are idealised as reals.
 *
 * Alongside the buffer the model keeps, as ghost state, every sample ever pushed; the class
 * invariant says which of them the buffer holds, so that the average can be stated as the
 * mean of the last `min(pushes, window)` samples.
 */
module FrameTimes {
  import opened Wrappers
  import opened Ints

  /** The exception the constructor throws for a non-positive window. */
  datatype Fault = WindowSizeOutOfRange

  /** The sum of a sequence, added from the front. */
  function Sum(s: seq<real>): real
  {
    if |s| == 0 then 0.0 else Sum(s[..|s| - 1]) + s[|s| - 1]
  }

  /** The mean, 0 for an empty sequence. */
  function Mean(s: seq<real>): real
  {
    if |s| == 0 then 0.0 else Sum(s) / |s| as real
  }

  /** Summing a concatenation sums the parts. */
  lemma {:induction false} SumAppend(a: seq<real>, b: seq<real>)
    ensures Sum(a + b) == Sum(a) + Sum(b)
    decreases |b|
  {
    if |b| > 0 {
      assert (a + b)[..|a + b| - 1] == a + b[..|b| - 1];
      SumAppend(a, b[..|b| - 1]);
    } else {
      assert a + b == a;
    }
  }

  /** The order of the two halves of a rotation does not change its sum, so neither does it
      change its mean. */
  lemma RotationMean(a: seq<real>, b: seq<real>)
    ensures Sum(a + b) == Sum(b + a)
    ensures Mean(a + b) == Mean(b + a)
  {
    SumAppend(a, b);
    SumAppend(b, a);
  }

  /** The last `min(|samples|, window)` samples. */
  function Window(samples: seq<real>, window: nat): (w: seq<real>)
    ensures |w| == Min(|samples|, window)
    ensures w == samples[|samples| - |w|..]
  {
    samples[|samples| - Min(|samples|, window)..]
  }

  class FrameTimeAverager {
    const values: array<real>
    var index: I32
    var count: I32
    /** Every sample pushed so far, oldest first. */
    ghost var samples: seq<real>

    /** The window is at most `Int32.MaxValue` slots, the index is a slot, and the buffer
        holds the most recent samples as `HoldsWindow` says. */
    ghost predicate Valid()
      reads this, values
    {
      && 0 < values.Length <= I32_MAX
      && 0 <= index < values.Length && 0 <= count
      && HoldsWindow(values[..], samples, index as nat, count as nat)
    }

    /** The constructor once its check has passed: a zeroed window of `windowSize` slots and
        no samples. */
    constructor(windowSize: I32)
      requires windowSize > 0
      ensures Valid() && fresh(values) && values.Length == windowSize
      ensures samples == [] && index == 0 && count == 0
    {
      values := new real[windowSize](_ => 0.0);
      index, count := 0, 0;
      samples := [];
    }

    /** `Push(ms)`: `ms` goes into slot `index`, and nothing else in the buffer changes; the
        index moves on circularly and the count grows up to the window size. */
    method Push(ms: real)
      requires Valid()
      modifies this, values
      ensures Valid()
      ensures samples == old(samples) + [ms]
      ensures values[..] == old(values[..])[old(index) := ms]
      ensures index == (old(index) + 1) % values.Length
      ensures count == Min(old(count) + 1, values.Length)
    {
      ghost var oldValues, prev := values[..], samples;
      NextIndex(values.Length, index as nat);
      values[index] := ms;
      samples := samples + [ms];
      index := (index + 1) % values.Length;
      if count < values.Length {
        count := count + 1;
      }
      PushKeepsWindow(oldValues, prev, ms, old(index) as nat, old(count) as nat,
                      index as nat, count as nat);
    }

    /** `AverageMs`: 0 before any push, otherwise the mean of the filled slots, which is the
        mean of the most recent `min(pushes, window)` samples. */
    method AverageMs() returns (avg: real)
      requires Valid()
      ensures avg == Mean(values[..count])
      ensures avg == Mean(Window(samples, values.Length))
      ensures count == 0 ==> avg == 0.0
    {
      if count == 0 {
        return 0.0;
      }
      var sum := 0.0;
      for i := 0 to count
        invariant sum == Sum(values[..i])
      {
        assert values[..i + 1][..i] == values[..i];
        sum := sum + values[i];
      }
      assert values[..count] == values[..count][..count];
      avg := sum / count as real;
      WindowMean(values[..], samples, index as nat, count as nat);
    }
  }

  /** How a circular buffer `buf` holds the window of `samples`: the count follows the number
      of pushes up to the buffer size, the index equals it until the buffer has filled, the
      `index` newest samples are in slots 0..index and the older rest of the window in slots
      index..count. */
  ghost predicate HoldsWindow(buf: seq<real>, samples: seq<real>, index: nat, count: nat)
  {
    && index <= count <= |buf|
    && count == Min(|samples|, |buf|)
    && (count < |buf| ==> index == count)
    && buf[..index] == samples[|samples| - index..]
    && buf[index..count] == samples[|samples| - count..|samples| - index]
  }

  /** The buffer's filled slots are a rotation of the window, so they have its mean. */
  lemma WindowMean(buf: seq<real>, samples: seq<real>, index: nat, count: nat)
    requires HoldsWindow(buf, samples, index, count)
    ensures Mean(buf[..count]) == Mean(Window(samples, |buf|))
  {
    var n := |samples|;
    assert buf[..count] == buf[..index] + buf[index..count];
    assert Window(samples, |buf|) == samples[n - count..n - index] + samples[n - index..];
    RotationMean(samples[n - index..], samples[n - count..n - index]);
  }

  /** One push keeps the buffer holding the window: `x` goes into slot `index`, and `index'`
      and `count'` are the index and count after the push, written out case by case. */
  lemma PushKeepsWindow(old_: seq<real>, prev: seq<real>, x: real, index: nat, count: nat,
                        index': nat, count': nat)
    requires HoldsWindow(old_, prev, index, count) && index < |old_|
    requires index' == if index + 1 == |old_| then 0 else index + 1
    requires count' == if count < |old_| then count + 1 else |old_|
    ensures HoldsWindow(old_[index := x], prev + [x], index', count')
  {
    var new_, samples, len := old_[index := x], prev + [x], |old_|;
    var m := |samples|;
    assert old_[..index] == samples[m - 1 - index..m - 1];
    assert old_[index..count] == samples[m - 1 - count..m - 1 - index];
    assert new_[..index + 1] == samples[m - 1 - index..] by {
      assert new_[..index + 1] == old_[..index] + [x];
    }
    if index + 1 == len {
      assert count' == len && m - 1 - index == m - len;
      assert new_[index'..count'] == new_[..index + 1];
    } else if count == len {
      assert old_[index + 1..len] == samples[m - len..m - 1 - index] by {
        assert old_[index..len] == [old_[index]] + old_[index + 1..len];
      }
      assert new_[index'..count'] == old_[index + 1..len];
    } else {
      assert index' == count';
    }
  }

  /** The index moves to the next slot, and from the last slot back to the first. */
  lemma NextIndex(len: nat, index: nat)
    requires index < len
    ensures (index + 1) % len == if index + 1 == len then 0 else index + 1
  {
    if index + 1 < len {
      DivMod(index + 1, len, 0, index + 1);
    } else {
      DivMod(index + 1, len, 1, 0);
    }
  }

  /** `new FrameTimeAverager(windowSize)`: a non-positive window throws, otherwise an empty
      averager. */
  method Create(windowSize: I32) returns (r: Result<FrameTimeAverager, Fault>)
    ensures windowSize <= 0 ==> r == Failure(WindowSizeOutOfRange)
    ensures windowSize > 0 ==>
              && r.Success? && fresh(r.value) && fresh(r.value.values) && r.value.Valid()
              && r.value.values.Length == windowSize && r.value.samples == []
  {
    if windowSize <= 0 {
      return Failure(WindowSizeOutOfRange);
    }
    var a := new FrameTimeAverager(windowSize);
    return Success(a);
  }
}
