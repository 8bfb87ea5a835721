/**
 The streaming linear resampler to 48 kHz, in exact arithmetic: positions count
 1/48000 of an input frame, samples are reals, a frame has one sample a channel.
 */
module Resampler {

  type Frame = seq<real>

  const SAMPLE_RATE := 48_000

  /** Position of output frame `k` on the input timeline: k * rate, summed. */
  function Position(k: nat, rate: nat): nat {
    if k == 0 then 0 else Position(k - 1, rate) + rate
  }

  lemma {:induction false} PositionIsProduct(k: nat, rate: nat)
    ensures Position(k, rate) == k * rate
  {
    if k > 0 {
      PositionIsProduct(k - 1, rate);
      assert k * rate == (k - 1) * rate + rate;
    }
  }

  lemma {:induction false} PositionsGrow(j: nat, k: nat, rate: nat)
    requires j <= k
    ensures Position(j, rate) <= Position(k, rate)
    ensures j < k ==> Position(j, rate) + rate <= Position(k, rate)
    decreases k
  {
    if j < k {
      PositionsGrow(j, k - 1, rate);
    }
  }

  function Lerp(a: real, b: real, part: nat): real {
    a + (b - a) * (part as real / SAMPLE_RATE as real)
  }

  function Blend(a: Frame, b: Frame, part: nat): (r: Frame)
    ensures |r| == |a|
  {
    seq(|a|, c requires 0 <= c < |a| => Lerp(a[c], if c < |b| then b[c] else 0.0, part))
  }

  /** Output frame `k` of a stream: the two input frames around its position, blended. */
  function OutputAt(frames: seq<Frame>, k: nat, rate: nat): Frame
    requires Position(k, rate) < (|frames| - 1) * SAMPLE_RATE
  {
    var x := Position(k, rate);
    Blend(frames[x / SAMPLE_RATE], frames[x / SAMPLE_RATE + 1], x % SAMPLE_RATE)
  }

  /** Output frames `first` to `end` of a stream, as far as it has input for them. */
  function Outputs(frames: seq<Frame>, first: nat, end: nat, rate: nat): seq<Frame>
    decreases end
  {
    if end <= first || Position(end - 1, rate) >= (|frames| - 1) * SAMPLE_RATE then []
    else Outputs(frames, first, end - 1, rate) + [OutputAt(frames, end - 1, rate)]
  }

  /** How many output frames `n` input frames make: the ceiling of (n-1) * 48000 / rate. */
  function Count(n: nat, rate: nat): nat
    requires rate > 0
  {
    if n == 0 then 0 else ((n - 1) * SAMPLE_RATE + rate - 1) / rate
  }

  /** The first output frame that has no two neighbours yet. */
  lemma CountIs(n: nat, rate: nat, k: nat)
    requires rate > 0 && n > 0
    ensures Position(k, rate) >= (n - 1) * SAMPLE_RATE && (k == 0 || Position(k - 1, rate) < (n - 1) * SAMPLE_RATE)
            <==> k == Count(n, rate)
  {
    var x, c := (n - 1) * SAMPLE_RATE, Count(n, rate);
    Ceiling(x, rate);
    PositionIsProduct(c, rate);
    if c > 0 {
      PositionIsProduct(c - 1, rate);
    }
    if k < c {
      PositionsGrow(k, c - 1, rate);
    } else if k > c {
      PositionsGrow(c, k - 1, rate);
    }
  }

  lemma Ceiling(x: nat, rate: nat)
    requires rate > 0
    ensures var c := (x + rate - 1) / rate; c * rate >= x && (c == 0 || (c - 1) * rate < x)
  {
    var y := x + rate - 1;
    assert y == y / rate * rate + y % rate;
    var c := y / rate;
    assert c > 0 ==> (c - 1) * rate == c * rate - rate;
  }

  class LinearResampler {
    const inRate: nat
    var pos: int
    var lastFrame: Frame
    var haveLast: bool
    ghost var fed: seq<Frame>

    /** Everything the state says about the frames fed so far. */
    ghost predicate Valid()
      reads this
    {
      && inRate > 0 && haveLast == (fed != []) && (haveLast ==> lastFrame == fed[|fed| - 1])
      && pos == Position(Count(|fed|, inRate), inRate) - |fed| * SAMPLE_RATE
    }

    constructor (inRate: nat)
      requires inRate > 0
      ensures Valid() && fed == [] && this.inRate == inRate
    {
      this.inRate, pos, lastFrame, haveLast, fed := inRate, 0, [], false, [];
    }

    method Process(input: seq<Frame>) returns (out: seq<Frame>)
      requires Valid()
      modifies this
      ensures Valid()
      ensures inRate == SAMPLE_RATE ==> out == input && unchanged(this)
      ensures inRate != SAMPLE_RATE ==>
                fed == old(fed) + input
                && out == Outputs(fed, Count(|old(fed)|, inRate), Count(|fed|, inRate), inRate)
    {
      hide Outputs, Count, Blend, Position, Streaming;
      if inRate == SAMPLE_RATE {
        return input;
      }
      out := [];
      if |input| == 0 {
        assert fed + input == fed;
        NoOutputs(fed, Count(|fed|, inRate), inRate);
        return;
      }
      ghost var k := Count(|fed|, inRate);
      StreamingStarts(fed, input, inRate);
      while pos < (|input| - 1) * SAMPLE_RATE
        invariant Streaming(fed, input, k, inRate, pos, out)
        invariant unchanged(`fed) && unchanged(`lastFrame) && unchanged(`haveLast)
        decreases (|input| - 1) * SAMPLE_RATE - pos
      {
        BaseInRange(fed, input, k, inRate, pos, out);
        var base := pos / SAMPLE_RATE;
        var part := pos - SAMPLE_RATE * base;
        var a := if base >= 0 then input[base] else lastFrame;  // before input[0] only once there is a last frame
        StreamingStep(fed, input, k, inRate, pos, out, a);
        out := out + [Blend(a, input[base + 1], part)];
        pos := pos + inRate;
        k := k + 1;
      }
      StreamingEnds(fed, input, k, inRate, pos, out);
      pos := pos - |input| * SAMPLE_RATE;
      lastFrame, haveLast := input[|input| - 1], true;
      fed := fed + input;
    }
  }

  /** In the midst of a call: outputs `first` to `k` are made, `pos` is where the next
      one lies in this call's input. */
  ghost predicate Streaming(fed: seq<Frame>, input: seq<Frame>, k: nat, rate: nat, pos: int, out: seq<Frame>)
    requires rate > 0
  {
    var first := Count(|fed|, rate);
    && k >= first && pos == Position(k, rate) - |fed| * SAMPLE_RATE
    && pos >= -SAMPLE_RATE && (fed == [] ==> pos >= 0)
    && (k == 0 || Position(k - 1, rate) < (|fed + input| - 1) * SAMPLE_RATE)
    && out == Outputs(fed + input, first, k, rate)
  }

  lemma StreamingStarts(fed: seq<Frame>, input: seq<Frame>, rate: nat)
    requires rate > 0 && input != []
    ensures Streaming(fed, input, Count(|fed|, rate), rate, Position(Count(|fed|, rate), rate) - |fed| * SAMPLE_RATE, [])
  {
    NoOutputs(fed + input, Count(|fed|, rate), rate);
    BeforeNext(|fed|, rate);
    EarlierCount(|fed|, |fed + input|, rate);
  }

  lemma BaseInRange(fed: seq<Frame>, input: seq<Frame>, k: nat, rate: nat, pos: int, out: seq<Frame>)
    requires rate > 0 && Streaming(fed, input, k, rate, pos, out) && pos < (|input| - 1) * SAMPLE_RATE
    ensures var base := pos / SAMPLE_RATE;
            -1 <= base && 0 <= base + 1 < |input| && 0 <= pos - SAMPLE_RATE * base < SAMPLE_RATE
    ensures fed == [] ==> pos / SAMPLE_RATE >= 0
  {
    hide Count, Position, Outputs;
  }

  /** One blend is the next output of the whole stream. */
  lemma StreamingStep(fed: seq<Frame>, input: seq<Frame>, k: nat, rate: nat, pos: int, out: seq<Frame>, a: Frame)
    requires rate > 0 && Streaming(fed, input, k, rate, pos, out) && pos < (|input| - 1) * SAMPLE_RATE
    requires var base := pos / SAMPLE_RATE;
             0 <= base + 1 < |input| && 0 <= pos - SAMPLE_RATE * base < SAMPLE_RATE
    requires fed == [] ==> pos / SAMPLE_RATE >= 0
    requires a == if pos / SAMPLE_RATE >= 0 then input[pos / SAMPLE_RATE] else fed[|fed| - 1]
    ensures var base := pos / SAMPLE_RATE;
            Streaming(fed, input, k + 1, rate, pos + rate,
                      out + [Blend(a, input[base + 1], pos - SAMPLE_RATE * base)])
  {
    hide Count, Blend;
    var base, all, x := pos / SAMPLE_RATE, fed + input, Position(k, rate);
    assert x / SAMPLE_RATE == |fed| + base && x % SAMPLE_RATE == pos - SAMPLE_RATE * base;
    assert a == all[|fed| + base] && input[base + 1] == all[|fed| + base + 1];
  }

  lemma StreamingEnds(fed: seq<Frame>, input: seq<Frame>, k: nat, rate: nat, pos: int, out: seq<Frame>)
    requires rate > 0 && input != [] && Streaming(fed, input, k, rate, pos, out) && pos >= (|input| - 1) * SAMPLE_RATE
    ensures k == Count(|fed + input|, rate) && out == Outputs(fed + input, Count(|fed|, rate), k, rate)
    ensures pos - |input| * SAMPLE_RATE == Position(k, rate) - |fed + input| * SAMPLE_RATE
  {
    hide Count, Position, Outputs;
    CountIs(|fed + input|, rate, k);
  }

  lemma NoOutputs(frames: seq<Frame>, k: nat, rate: nat)
    ensures Outputs(frames, k, k, rate) == []
  {
  }

  /** Where the next call starts: at most one frame back, and at 0 the first time. */
  lemma BeforeNext(n: nat, rate: nat)
    requires rate > 0
    ensures var p := Position(Count(n, rate), rate) - n * SAMPLE_RATE; p >= -SAMPLE_RATE && (n == 0 ==> p == 0)
  {
    if n > 0 {
      CountIs(n, rate, Count(n, rate));
    }
  }

  /** Outputs counted earlier lie before those of a longer stream. */
  lemma EarlierCount(n: nat, m: nat, rate: nat)
    requires rate > 0 && n <= m && m > 0
    ensures Count(n, rate) <= Count(m, rate)
    ensures Count(n, rate) > 0 ==> Position(Count(n, rate) - 1, rate) < SAMPLE_RATE * (m - 1)
  {
    CountIs(m, rate, Count(m, rate));
    if n > 0 {
      CountIs(n, rate, Count(n, rate));
      if Count(n, rate) > Count(m, rate) {
        PositionsGrow(Count(m, rate), Count(n, rate) - 1, rate);
      }
    }
  }

  // ---------------------------------------------------------------- main results

  function Flatten(calls: seq<seq<Frame>>): seq<Frame> {
    if calls == [] then [] else Flatten(calls[..|calls| - 1]) + calls[|calls| - 1]
  }

  /** A longer stream begins with the same outputs. */
  lemma {:induction false} OutputsStay(frames: seq<Frame>, more: seq<Frame>, first: nat, end: nat, rate: nat)
    requires end == 0 || end <= first || Position(end - 1, rate) < (|frames| - 1) * SAMPLE_RATE
    ensures Outputs(frames + more, first, end, rate) == Outputs(frames, first, end, rate)
    decreases end
  {
    if end > first {
      PositionsGrow(end - 1, end - 1, rate);
      if end > 1 {
        PositionsGrow(end - 2, end - 1, rate);
      }
      OutputsStay(frames, more, first, end - 1, rate);
    }
  }

  lemma {:induction false} OutputsJoin(frames: seq<Frame>, mid: nat, end: nat, rate: nat)
    requires mid <= end && (end == 0 || Position(end - 1, rate) < (|frames| - 1) * SAMPLE_RATE)
    ensures Outputs(frames, 0, mid, rate) + Outputs(frames, mid, end, rate) == Outputs(frames, 0, end, rate)
    ensures |Outputs(frames, 0, end, rate)| == end
    decreases end
  {
    if end > 0 {
      if end > 1 {
        PositionsGrow(end - 2, end - 1, rate);
      }
      OutputsJoin(frames, if mid < end then mid else end - 1, end - 1, rate);
    }
  }

  lemma OutputsExtend(frames: seq<Frame>, more: seq<Frame>, rate: nat)
    requires rate > 0
    ensures Outputs(frames, 0, Count(|frames|, rate), rate)
            + Outputs(frames + more, Count(|frames|, rate), Count(|frames + more|, rate), rate)
            == Outputs(frames + more, 0, Count(|frames + more|, rate), rate)
  {
    var n, all := |frames|, frames + more;
    if all != [] {
      EarlierCount(n, |all|, rate);
      CountIs(|all|, rate, Count(|all|, rate));
      if n > 0 {
        CountIs(n, rate, Count(n, rate));
      }
      OutputsStay(frames, more, 0, Count(n, rate), rate);
      OutputsJoin(all, Count(n, rate), Count(|all|, rate), rate);
    }
  }

  /** However the input is cut into calls, the outputs are those of one call on all
      of it. */
  method ProcessAll(inRate: nat, calls: seq<seq<Frame>>) returns (out: seq<Frame>)
    requires inRate > 0 && inRate != SAMPLE_RATE
    ensures out == Outputs(Flatten(calls), 0, Count(|Flatten(calls)|, inRate), inRate)
  {
    var r := new LinearResampler(inRate);
    out := [];
    var i := 0;
    while i < |calls|
      invariant 0 <= i <= |calls| && r.Valid() && fresh(r) && r.inRate == inRate
      invariant r.fed == Flatten(calls[..i])
      invariant out == Outputs(r.fed, 0, Count(|r.fed|, inRate), inRate)
    {
      OutputsExtend(r.fed, calls[i], inRate);
      assert calls[..i + 1][..i] == calls[..i];
      var more := r.Process(calls[i]);
      out := out + more;
      i := i + 1;
    }
    assert calls[..i] == calls;
  }

  /** N frames in, ceil((N-1) * 48000 / rate) out, for N >= 1. */
  lemma OutputCount(frames: seq<Frame>, rate: nat)
    requires rate > 0
    ensures |Outputs(frames, 0, Count(|frames|, rate), rate)| == Count(|frames|, rate)
  {
    if frames != [] {
      CountIs(|frames|, rate, Count(|frames|, rate));
      OutputsJoin(frames, 0, Count(|frames|, rate), rate);
    }
  }

  /** `e` scaled by at most one stays on the way from `a` to `a + e`. */
  lemma Convex(a: real, e: real, t: real)
    requires 0.0 <= t <= 1.0
    ensures (e >= 0.0 ==> a <= a + e * t <= a + e) && (e <= 0.0 ==> a + e <= a + e * t <= a)
  {
    if e >= 0.0 {
      Scaled(e, t);
    } else {
      Scaled(-e, t);
      Mirrored(-e, e, t);
    }
  }

  lemma LerpBetween(a: real, b: real, part: nat)
    requires part < SAMPLE_RATE
    ensures (a <= b ==> a <= Lerp(a, b, part) <= b) && (b <= a ==> b <= Lerp(a, b, part) <= a)
  {
    var e, t := b - a, part as real / SAMPLE_RATE as real;
    Convex(a, e, t);
    assert Lerp(a, b, part) == a + e * t;
    assert a + e == b;
  }

  lemma Mirrored(d: real, e: real, t: real)
    requires e == -d
    ensures e * t == -(d * t)
  {
  }

  lemma Scaled(d: real, t: real)
    requires d >= 0.0 && 0.0 <= t <= 1.0
    ensures 0.0 <= d * t <= d
  {
    assert d * (1.0 - t) >= 0.0;
  }

  /** Every output sample lies between the two input samples around it. */
  lemma OutputsLieBetween(frames: seq<Frame>, k: nat, c: nat, rate: nat)
    requires rate > 0 && frames != [] && k < Count(|frames|, rate)
    requires forall i :: 0 <= i < |frames| ==> c < |frames[i]|
    ensures Position(k, rate) < (|frames| - 1) * SAMPLE_RATE
    ensures var i := Position(k, rate) / SAMPLE_RATE;
            var a, b, s := frames[i][c], frames[i + 1][c], OutputAt(frames, k, rate)[c];
            (a <= b ==> a <= s <= b) && (b <= a ==> b <= s <= a)
  {
    CountIs(|frames|, rate, Count(|frames|, rate));
    PositionsGrow(k, Count(|frames|, rate) - 1, rate);
    var x := Position(k, rate);
    LerpBetween(frames[x / SAMPLE_RATE][c], frames[x / SAMPLE_RATE + 1][c], x % SAMPLE_RATE);
  }

  lemma {:induction false} OutputsIndex(frames: seq<Frame>, end: nat, k: nat, rate: nat)
    requires k < end && Position(end - 1, rate) < (|frames| - 1) * SAMPLE_RATE
    ensures |Outputs(frames, 0, end, rate)| == end && Position(k, rate) < (|frames| - 1) * SAMPLE_RATE
    ensures Outputs(frames, 0, end, rate)[k] == OutputAt(frames, k, rate)
    decreases end
  {
    hide OutputAt, Position;
    PositionsGrow(k, end - 1, rate);
    OutputsJoin(frames, 0, end, rate);
    if k < end - 1 {
      PositionsGrow(end - 2, end - 1, rate);
      OutputsIndex(frames, end - 1, k, rate);
    }
  }

  lemma OutputIs(frames: seq<Frame>, k: nat, rate: nat)
    requires rate > 0 && frames != [] && k < Count(|frames|, rate)
    ensures Position(k, rate) < (|frames| - 1) * SAMPLE_RATE
    ensures |Outputs(frames, 0, Count(|frames|, rate), rate)| == Count(|frames|, rate)
    ensures Outputs(frames, 0, Count(|frames|, rate), rate)[k] == OutputAt(frames, k, rate)
  {
    hide Outputs, OutputAt, Count, Position;
    CountIs(|frames|, rate, Count(|frames|, rate));
    OutputsIndex(frames, Count(|frames|, rate), k, rate);
  }

  /** Channel `c` rises by `step` a frame, from `first`. */
  ghost predicate Ramp(frames: seq<Frame>, c: nat, first: real, step: real) {
    forall i :: 0 <= i < |frames| ==> c < |frames[i]| && frames[i][c] == first + step * i as real
  }

  /** A linear ramp comes out as the same ramp, read every rate / 48000 input frames. */
  lemma RampsStayRamps(frames: seq<Frame>, k: nat, c: nat, rate: nat, first: real, step: real)
    requires rate > 0 && frames != [] && k < Count(|frames|, rate) && Ramp(frames, c, first, step)
    ensures k < |Outputs(frames, 0, Count(|frames|, rate), rate)|
    ensures c < |Outputs(frames, 0, Count(|frames|, rate), rate)[k]|
    ensures Outputs(frames, 0, Count(|frames|, rate), rate)[k][c] == first + step * ((k * rate) as real / 48_000.0)
  {
    hide Outputs, Count, Position, Lerp;
    OutputIs(frames, k, rate);
    PositionIsProduct(k, rate);
    var x := Position(k, rate);
    var n, part := x / SAMPLE_RATE, x % SAMPLE_RATE;
    LerpOnRamp(first, step, n, part, frames[n][c], frames[n + 1][c]);
    assert x == 48_000 * n + part;
  }

  lemma LerpOnRamp(first: real, step: real, n: nat, part: nat, a: real, b: real)
    requires a == first + step * n as real && b == first + step * (n + 1) as real
    ensures Lerp(a, b, part) == first + step * ((48_000 * n + part) as real / 48_000.0)
  {
    assert (n + 1) as real == n as real + 1.0;
    assert b - a == step;
    var t := part as real / 48_000.0;
    assert (48_000 * n + part) as real / 48_000.0 == n as real + t;
    assert step * (n as real + t) == step * n as real + step * t;
  }

  /** An output at a whole position is that input frame. */
  lemma WholePositionsPass(frames: seq<Frame>, k: nat, rate: nat, n: nat)
    requires rate > 0 && frames != [] && k < Count(|frames|, rate) && k * rate == 48_000 * n
    ensures n < |frames| && k < |Outputs(frames, 0, Count(|frames|, rate), rate)|
    ensures Outputs(frames, 0, Count(|frames|, rate), rate)[k] == frames[n]
  {
    hide Outputs, Count, Position;
    OutputIs(frames, k, rate);
    PositionIsProduct(k, rate);
    assert OutputAt(frames, k, rate) == frames[n];
  }
}
