/** What the resampler does to single samples: where a lone sample of a stream is heard,
    through which weight, and divided by what. */
module ResampleImpulse {
  import opened Bits
  import opened Float32
  import opened Pcm
  import opened Arith
  import opened ResampleSpec
  import opened ResampleLaws

  // ---- sums ----

  /** xs added up from the left, beginning with zero. */
  function Sum(add: (F32, F32) -> F32, xs: seq<F32>): F32 {
    if xs == [] then ZERO else add(Sum(add, xs[..|xs| - 1]), xs[|xs| - 1])
  }

  /** Adding zero changes nothing, as in float arithmetic up to the sign of zero, and the
      weights and counts take zero to zero. */
  ghost predicate ZeroIsNeutral(ops: FloatOps) {
    && (forall x: F32 :: (ops.add)(ZERO, x) == x && (ops.add)(x, ZERO) == x)
    && (forall a, b, k, frac :: (ops.mul)(ZERO, (ops.kernel)(a, b, k, frac)) == ZERO)
    && (forall n: nat :: n > 0 ==> (ops.div)(ZERO, (ops.ofCount)(n)) == ZERO)
  }

  /** An arithmetic in which a sample at full scale is heard as the weight it meets. */
  function Echo(kernel: (int, int, int, nat) -> F32): FloatOps {
    FloatOps((x: F32, y: F32) => if x == ZERO then y else x, (x: F32, w: F32) => if x == ZERO then ZERO else w,
             (x: F32, d: F32) => x, (x: F32) => x == ZERO, (n: nat) => ONE, kernel)
  }

  lemma EchoIsNeutral(kernel: (int, int, int, nat) -> F32)
    ensures ZeroIsNeutral(Echo(kernel))
  {
  }

  lemma {:induction false} SumOfOne(ops: FloatOps, xs: seq<F32>, k: int, x: F32)
    requires ZeroIsNeutral(ops) && forall i :: 0 <= i < |xs| ==> xs[i] == if i == k then x else ZERO
    ensures Sum(ops.add, xs) == if 0 <= k < |xs| then x else ZERO
    decreases |xs|
  {
    if xs != [] {
      SumOfOne(ops, xs[..|xs| - 1], k, x);
    }
  }

  lemma SumOfTwo(add: (F32, F32) -> F32, a: F32, b: F32)
    ensures Sum(add, [a, b]) == add(add(ZERO, a), b)
  {
    assert [a, b][..1] == [a] && [a][..0] == [];
    assert Sum(add, [a]) == add(ZERO, a);
  }

  // ---- the downmix ----

  /** How many of the channels s, s + mid, s + 2 * mid, ... there are. */
  function Strides(channels: nat, mid: nat, s: nat): nat
    requires mid > 0
  {
    if s >= channels then 0 else CeilDivNonneg(channels - s, mid); CeilDiv(channels - s, mid)
  }

  lemma StridesStep(channels: nat, mid: nat, s: nat)
    requires mid > 0 && s < channels
    ensures Strides(channels, mid, s) == 1 + Strides(channels, mid, s + mid)
  {
    DivAddMultiple(1, channels - s - 1, mid);
    if s + mid >= channels { DivUnique(channels - s - 1, mid, 0, channels - s - 1); }
  }

  /** Output channel c is made of as many input channels as are congruent to it. */
  lemma {:induction false} StridesCount(channels: nat, mid: nat, c: nat)
    requires 0 < mid && c < mid
    ensures |set s | 0 <= s < channels && s % mid == c| == Strides(channels, mid, c)
    decreases channels
  {
    var all := set s | 0 <= s < channels && s % mid == c;
    if channels > 0 {
      var n := channels - 1;
      StridesCount(n, mid, c);
      var fewer := set s | 0 <= s < n && s % mid == c;
      DivMod(n, mid);
      StridesGrow(n, mid, c);
      if n % mid == c {
        assert all == fewer + {n};
      } else {
        assert all == fewer;
      }
    } else {
      assert all == {};
    }
  }

  lemma StridesGrow(n: nat, mid: nat, c: nat)
    requires 0 < mid && c < mid
    ensures Strides(n + 1, mid, c) == Strides(n, mid, c) + (if n % mid == c then 1 else 0)
  {
    var q, r := n / mid, n % mid;
    DivMod(n, mid);
    DivLess(n, mid, 0);
    // CeilDiv(n + 1 - c, mid) is (n - c + mid) / mid, and n - c == q * mid + (r - c).
    if r >= c {
      DivUnique(n + 1 - c + mid - 1, mid, q + 1, r - c) by { MulSucc(q, mid); }
      if r > c {
        DivUnique(n - c + mid - 1, mid, q + 1, r - c - 1) by { MulSucc(q, mid); }
      } else {
        DivUnique(n - c + mid - 1, mid, q, mid - 1);
      }
      MulLe(0, q, mid);
    } else {
      DivUnique(n + 1 - c + mid - 1, mid, q, r - c + mid);
      DivUnique(n - c + mid - 1, mid, q, r - c + mid - 1);
      if q >= 1 { MulLe(1, q, mid); }
    }
  }

  /** The input channels of output channel c in the frame at base, in order. */
  function ChannelsOf(src: seq<F32>, base: nat, channels: nat, mid: nat, s: nat): (xs: seq<F32>)
    requires mid > 0
    ensures |xs| == Strides(channels, mid, s)
  {
    seq(Strides(channels, mid, s), k requires 0 <= k < Strides(channels, mid, s) => At(src, base + s + k * mid))
  }

  lemma {:induction false} FoldIs(
      ops: FloatOps, src: seq<F32>, base: nat, channels: nat, mid: nat, s: nat, done: seq<F32>, n: nat)
    requires mid > 0
    ensures FoldChannels(ops, src, base, channels, mid, s, Sum(ops.add, done), n)
         == (Sum(ops.add, done + ChannelsOf(src, base, channels, mid, s)), n + Strides(channels, mid, s))
    decreases channels - s
  {
    if s >= channels {
      assert done + ChannelsOf(src, base, channels, mid, s) == done;
    } else {
      hide At, ChannelsOf, Strides;
      StridesStep(channels, mid, s);
      var x := At(src, base + s);
      SumNext(ops.add, done, x);
      FoldIs(ops, src, base, channels, mid, s + mid, done + [x], n + 1);
      ChannelsStep(src, base, channels, mid, s);
      var rest := ChannelsOf(src, base, channels, mid, s + mid);
      assert done + ([x] + rest) == (done + [x]) + rest;
    }
  }

  lemma SumNext(add: (F32, F32) -> F32, done: seq<F32>, x: F32)
    ensures Sum(add, done + [x]) == add(Sum(add, done), x)
  {
    assert (done + [x])[..|done|] == done;
  }

  lemma ChannelsStep(src: seq<F32>, base: nat, channels: nat, mid: nat, s: nat)
    requires mid > 0 && s < channels
    ensures ChannelsOf(src, base, channels, mid, s)
         == [At(src, base + s)] + ChannelsOf(src, base, channels, mid, s + mid)
  {
    StridesStep(channels, mid, s);
    var whole, rest := ChannelsOf(src, base, channels, mid, s), ChannelsOf(src, base, channels, mid, s + mid);
    forall k | 0 <= k < |whole| ensures whole[k] == ([At(src, base + s)] + rest)[k] {
      if k == 0 {
        MulZero(mid);
      } else {
        MulSucc(k - 1, mid);
        assert base + s + k * mid == base + (s + mid) + (k - 1) * mid;
      }
    }
  }

  /** For every arithmetic: an averaged sample is the sum of all input channels congruent
      to its own, in order, divided by their number. */
  lemma AverageIs(ops: FloatOps, src: seq<F32>, base: nat, channels: nat, mid: nat, c: nat)
    requires mid > 0
    ensures Average(ops, src, base, channels, mid, c)
         == (ops.div)(Sum(ops.add, ChannelsOf(src, base, channels, mid, c)),
                      (ops.ofCount)(Strides(channels, mid, c)))
  {
    assert [] + ChannelsOf(src, base, channels, mid, c) == ChannelsOf(src, base, channels, mid, c);
    FoldIs(ops, src, base, channels, mid, c, [], 0);
  }

  /** Every sample of a downmix, in every arithmetic. */
  lemma DownmixIs(ops: FloatOps, src: seq<F32>, channels: nat, mid: nat, f: nat, c: nat)
    requires 0 < mid && 0 < channels && f < |src| / channels && c < mid
    ensures 0 <= f * mid && f * mid + c < |Downmix(ops, src, channels, mid)| && 0 <= f * channels
    ensures Downmix(ops, src, channels, mid)[f * mid + c]
         == (ops.div)(Sum(ops.add, ChannelsOf(src, f * channels, channels, mid, c)),
                      (ops.ofCount)(Strides(channels, mid, c)))
  {
    hide Downmix, Average, ChannelsOf;
    MulLe(0, f, mid);
    MulLe(0, f, channels);
    MulLe(f + 1, |src| / channels, mid);
    MulSucc(f, mid);
    DivUnique(f * mid + c, mid, f, c);
    DownmixAt(ops, src, channels, mid, f * mid + c);
    AverageIs(ops, src, f * channels, channels, mid, c);
  }

  /** Stereo to mono: both channels, halved. */
  lemma StereoToMono(ops: FloatOps, src: seq<F32>, f: nat)
    requires 2 * f + 1 < |src|
    ensures f < |Downmix(ops, src, 2, 1)|
    ensures Downmix(ops, src, 2, 1)[f]
         == (ops.div)((ops.add)((ops.add)(ZERO, src[2 * f]), src[2 * f + 1]), (ops.ofCount)(2))
  {
    hide Downmix, Average;
    DownmixAt(ops, src, 2, 1, f);
    assert f / 1 == f && f % 1 == 0;
    AverageIs(ops, src, 2 * f, 2, 1, 0);
    assert Strides(2, 1, 0) == 2;
    assert ChannelsOf(src, 2 * f, 2, 1, 0) == [src[2 * f], src[2 * f + 1]];
    SumOfTwo(ops.add, src[2 * f], src[2 * f + 1]);
  }

  /** A stream that is zero but for sample k. */
  ghost predicate Lone(s: seq<F32>, k: int, x: F32) { forall i: int :: At(s, i) == if i == k then x else ZERO }

  lemma LoneAt(s: seq<F32>, k: int, x: F32, i: int)
    requires Lone(s, k, x)
    ensures At(s, i) == if i == k then x else ZERO
  {
  }

  /** Sample t of frame f, read as sample c of frame j. */
  lemma SamePlace(j: int, c: nat, f: int, t: nat, per: nat)
    requires c < per && t < per
    ensures j * per + c == f * per + t <==> j == f && c == t
  {
    if j < f {
      MulLe(j + 1, f, per);
      MulSucc(j, per);
    } else if j > f {
      MulLe(f + 1, j, per);
      MulSucc(f, per);
    }
  }

  /** What a lone input sample x of channel s becomes in the mixed stream. */
  function Mixed(ops: FloatOps, channels: nat, mid: nat, s: nat, x: F32): F32
    requires 0 < mid
  {
    if channels <= mid then x else (ops.div)(x, (ops.ofCount)(Strides(channels, mid, s % mid)))
  }

  lemma MixedSame(ops: FloatOps, channels: nat, s: nat, x: F32)
    requires 0 < channels
    ensures Mixed(ops, channels, channels, s, x) == x
  {
  }

  /** A lone sample of channel s is averaged into channel s % mid of its frame. */
  lemma AverageLone(
      ops: FloatOps, src: seq<F32>, channels: nat, mid: nat, f: nat, s: nat, x: F32, q: nat, base: nat, c: nat)
    requires ZeroIsNeutral(ops) && 0 < mid && s < channels && c < mid && mid < channels && base == q * channels
    requires Lone(src, f * channels + s, x)
    ensures Average(ops, src, base, channels, mid, c)
         == if q == f && c == s % mid then (ops.div)(x, (ops.ofCount)(Strides(channels, mid, c))) else ZERO
  {
    hide Average, Lone, At;
    AverageIs(ops, src, base, channels, mid, c);
    var xs := ChannelsOf(src, base, channels, mid, c);
    var hit := q == f && c == s % mid;
    var k := if hit then s / mid else -1;
    DivMod(s, mid);
    DivLess(s, mid, 0);
    forall i | 0 <= i < |xs| ensures xs[i] == if i == k then x else ZERO {
      var ch := c + i * mid;
      CeilDivLess(channels - c, mid, i);
      MulLe(0, i, mid);
      LoneAt(src, f * channels + s, x, base + c + i * mid);
      SamePlace(q, ch, f, s, channels);
      SamePlace(i, c, s / mid, s % mid, mid);
    }
    SumOfOne(ops, xs, k, x);
    if hit { CeilDivLess(channels - c, mid, s / mid); }
    CeilDivLess(channels - c, mid, 0);
  }

  lemma DownmixLone(ops: FloatOps, src: seq<F32>, channels: nat, mid: nat, f: nat, s: nat, x: F32)
    requires ZeroIsNeutral(ops) && 0 < mid < channels && s < channels && f < |src| / channels
    requires Lone(src, f * channels + s, x)
    ensures Lone(Downmix(ops, src, channels, mid), f * mid + s % mid, Mixed(ops, channels, mid, s, x))
  {
    hide Average, ZeroIsNeutral, Downmix;
    var out := Downmix(ops, src, channels, mid);
    var frames := |src| / channels;
    forall i ensures At(out, i) == if i == f * mid + s % mid then Mixed(ops, channels, mid, s, x) else ZERO {
      if 0 <= i < |out| {
        DownmixAt(ops, src, channels, mid, i);
        DivMod(i, mid);
        DivLess(i, mid, 0);
        AverageLone(ops, src, channels, mid, f, s, x, i / mid, i / mid * channels, i % mid);
        SamePlace(i / mid, i % mid, f, s % mid, mid);
      } else {
        MulLe(f + 1, frames, mid);
        MulSucc(f, mid);
        MulLe(0, f, mid);
      }
    }
  }

  /** With the lone sample in the partial frame at the end, nothing but silence. */
  lemma DownmixDropped(ops: FloatOps, src: seq<F32>, channels: nat, mid: nat, f: nat, s: nat, x: F32)
    requires ZeroIsNeutral(ops) && 0 < mid < channels && s < channels && f >= |src| / channels
    requires Lone(src, f * channels + s, x)
    ensures Lone(Downmix(ops, src, channels, mid), 0, ZERO)
  {
    hide Average, ZeroIsNeutral, Downmix;
    var out := Downmix(ops, src, channels, mid);
    forall i ensures At(out, i) == ZERO {
      if 0 <= i < |out| {
        DownmixAt(ops, src, channels, mid, i);
        DivMod(i, mid);
        DivLess(i, mid, 0);
        DivLess(i, mid, |src| / channels);
        AverageLone(ops, src, channels, mid, f, s, x, i / mid, i / mid * channels, i % mid);
      }
    }
  }

  /** Frame f of n whole frames is heard. */
  predicate Reaches(cfg: Config, rate: int, channels: int, n: nat, f: nat) {
    f < n || KeepsPartial(cfg, rate, channels)
  }

  lemma MixLone(ops: FloatOps, cfg: Config, rate: int, channels: int, src: seq<F32>, f: nat, s: nat, x: F32)
    requires cfg.Valid() && rate > 0 && channels > 0 && ZeroIsNeutral(ops) && s < channels
    requires Lone(src, f * channels + s, x)
    ensures var p := MakePlan(cfg, rate, channels); var n := |src| / channels;
      if n >= 0 && Reaches(cfg, rate, channels, n, f)
      then Lone(Mix(ops, p, src), f * p.mid + s % p.mid, Mixed(ops, channels, p.mid, s, x))
      else Lone(Mix(ops, p, src), 0, ZERO)
  {
    hide Downmix, ZeroIsNeutral, Mixed, Lone, At, WholePrefix, Gcd, HalfTaps, Plan.Frames, Plan.Outputs;
    var p := MakePlan(cfg, rate, channels);
    assert p.mid == Min(channels, cfg.channels);
    hide MakePlan;
    DivMod(|src|, channels);
    DivLess(|src|, channels, 0);
    if channels != p.mid {
      if f < |src| / channels {
        DownmixLone(ops, src, channels, p.mid, f, s, x);
      } else {
        DownmixDropped(ops, src, channels, p.mid, f, s, x);
      }
    } else {
      DivUnique(s, channels, 0, s);
      assert Mixed(ops, channels, p.mid, s, x) == x by { MixedSame(ops, channels, s, x); }
      if !p.Filtered() {
        PrefixLone(src, f, s, x, channels);
      }
    }
  }

  lemma PrefixLone(src: seq<F32>, f: nat, s: nat, x: F32, channels: nat)
    requires s < channels && Lone(src, f * channels + s, x)
    ensures if f < |src| / channels then Lone(WholePrefix(src, channels), f * channels + s, x)
            else Lone(WholePrefix(src, channels), 0, ZERO)
  {
    var whole := WholePrefix(src, channels);
    var n := |src| / channels;
    DivMod(|src|, channels);
    assert |whole| == n * channels;
    MulSucc(f, channels);
    forall i ensures At(whole, i) == if i == f * channels + s && f < n then x else ZERO {
      LoneAt(src, f * channels + s, x, i);
      if f < n { MulLe(f + 1, n, channels); } else { MulLe(n, f, channels); }
    }
  }

  // ---- the filter ----

  /** The weights at fraction frac of a step, from the first tap to the last. */
  function Weights(ops: FloatOps, rate: int, outRate: int, reach: nat, frac: nat): seq<F32> {
    seq<F32>(2 * reach, i requires 0 <= i < 2 * reach => (ops.kernel)(rate, outRate, reach - 1 - i, frac))
  }

  /** What a filtered sample is divided by: the sum of all weights, or one. */
  function Divisor(ops: FloatOps, rate: int, outRate: int, reach: nat, frac: nat): F32 {
    var sum := Sum(ops.add, Weights(ops, rate, outRate, reach, frac));
    if (ops.isZero)(sum) then ONE else sum
  }

  /** The weighted samples of channel c around frame q: tap i reads frame q - reach + 1 + i. */
  function Products(
      ops: FloatOps, rate: int, outRate: int, reach: nat, frac: nat, m: seq<F32>, per: nat, q: int, c: nat,
      k: nat): (r: seq<F32>)
    ensures |r| == k
  {
    seq<F32>(k, i requires 0 <= i < k =>
      (ops.mul)(At(m, (q - reach + 1 + i) * per + c), (ops.kernel)(rate, outRate, reach - 1 - i, frac)))
  }

  lemma {:induction false} WeightSumIs(ops: FloatOps, p: Plan, frac: nat, k: nat)
    requires p.Valid() && k <= 2 * p.halfTaps
    ensures WeightSum(ops, p, frac, k)
         == Sum(ops.add, Weights(ops, p.inRate, p.cfg.sampleRate, p.halfTaps, frac)[..k])
  {
    if k > 0 {
      WeightSumIs(ops, p, frac, k - 1);
      var w := Weights(ops, p.inRate, p.cfg.sampleRate, p.halfTaps, frac);
      assert w[..k][..k - 1] == w[..k - 1];
    }
  }

  lemma {:induction false} TapSumIs(ops: FloatOps, p: Plan, m: seq<F32>, q: nat, frac: nat, c: nat, k: nat)
    requires p.Valid()
    ensures TapSum(ops, p, m, q, frac, c, k)
         == Sum(ops.add, Products(ops, p.inRate, p.cfg.sampleRate, p.halfTaps, frac, m, p.mid, q, c, k))
  {
    if k > 0 {
      TapSumIs(ops, p, m, q, frac, c, k - 1);
      var xs := Products(ops, p.inRate, p.cfg.sampleRate, p.halfTaps, frac, m, p.mid, q, c, k);
      assert xs[..k - 1] == Products(ops, p.inRate, p.cfg.sampleRate, p.halfTaps, frac, m, p.mid, q, c, k - 1);
    }
  }

  /** For every arithmetic: a filtered sample is the sum of the weighted samples around
      its exact position, divided by the sum of the weights. */
  function Filtered(
      ops: FloatOps, rate: int, outRate: int, m: seq<F32>, per: nat, n: nat, c: nat): F32
    requires rate > 0 && outRate > 0
  {
    StepExact(rate, outRate);
    var num, den, reach := rate / Gcd(rate, outRate), outRate / Gcd(rate, outRate), HalfTaps(rate, outRate);
    var q, frac := n * num / den, n * num % den;
    FractionInRange(n, num, den);
    (ops.div)(Sum(ops.add, Products(ops, rate, outRate, reach, frac, m, per, q, c, 2 * reach)),
              Divisor(ops, rate, outRate, reach, frac))
  }

  lemma FractionInRange(n: nat, num: nat, den: nat)
    requires den > 0
    ensures n * num % den >= 0
  {
    DivMod(n * num, den);
  }

  lemma OutSampleIs(ops: FloatOps, cfg: Config, rate: int, channels: int, m: seq<F32>, n: nat, c: nat)
    requires cfg.Valid() && rate > 0 && channels > 0 && rate != cfg.sampleRate
    ensures var p := MakePlan(cfg, rate, channels);
      OutSample(ops, p, m, n, c) == Filtered(ops, rate, cfg.sampleRate, m, p.mid, n, c)
  {
    var p := MakePlan(cfg, rate, channels);
    hide Gcd, HalfTaps, Products, Sum, TapSum, Weights, WeightSum;
    var w := Weights(ops, rate, cfg.sampleRate, p.halfTaps, Part(p, n));
    WeightSumIs(ops, p, Part(p, n), 2 * p.halfTaps);
    assert w[..2 * p.halfTaps] == w by { WeightsLength(ops, rate, cfg.sampleRate, p.halfTaps, Part(p, n)); }
    TapSumIs(ops, p, m, Whole(p, n), Part(p, n), c, 2 * p.halfTaps);
  }

  lemma WeightsLength(ops: FloatOps, rate: int, outRate: int, reach: nat, frac: nat)
    ensures |Weights(ops, rate, outRate, reach, frac)| == 2 * reach
  {
  }

  /** A lone sample x at frame f is met by one tap at most: the one whose weight is the
      kernel at the distance of the output position from f. */
  lemma ProductsLone(
      ops: FloatOps, rate: int, outRate: int, reach: nat, frac: nat, m: seq<F32>, per: nat, q: int, c: nat,
      f: int, t: nat, x: F32)
    requires ZeroIsNeutral(ops) && c < per && t < per && Lone(m, f * per + t, x)
    ensures Sum(ops.add, Products(ops, rate, outRate, reach, frac, m, per, q, c, 2 * reach))
         == if c == t && -(reach as int) <= q - f < reach
            then (ops.mul)(x, (ops.kernel)(rate, outRate, q - f, frac)) else ZERO
  {
    hide Lone, At;
    var xs := Products(ops, rate, outRate, reach, frac, m, per, q, c, 2 * reach);
    var k := if c == t then f - q + reach - 1 else -1;
    var w := (ops.kernel)(rate, outRate, q - f, frac);
    forall i | 0 <= i < |xs| ensures xs[i] == if i == k then (ops.mul)(x, w) else ZERO {
      var j := q - reach + 1 + i;
      LoneAt(m, f * per + t, x, j * per + c);
      SamePlace(j, c, f, t, per);
    }
    SumOfOne(ops, xs, k, (ops.mul)(x, w));
  }

  // ---- whole runs ----

  /** The frame of an interleaved sample. */
  function FrameOf(i: nat, per: nat): nat
    requires per > 0
  {
    DivLess(i, per, 0);
    i / per
  }

  lemma {:induction false} OutputAt(ops: FloatOps, p: Plan, m: seq<F32>, n: nat, i: nat)
    requires p.Valid() && i < n * p.cfg.channels
    ensures i < |Output(ops, p, m, n)| == n * p.cfg.channels
    ensures Output(ops, p, m, n)[i] == OutSample(ops, p, m, FrameOf(i, p.cfg.channels), i % p.cfg.channels % p.mid)
    decreases n
  {
    hide OutSample;
    var per := p.cfg.channels;
    OutputLength(ops, p, m, n);
    SamplesIs(n, per);
    DivLess(i, per, 0);
    if n > 0 {
      MulSucc(n - 1, per);
      OutputLength(ops, p, m, n - 1);
      SamplesIs(n - 1, per);
      if i < (n - 1) * per {
        OutputAt(ops, p, m, n - 1, i);
      } else {
        DivUnique(i, per, n - 1, i - (n - 1) * per);
      }
    }
  }

  /** Frames of a whole run over n input frames. */
  function RunFrames(cfg: Config, rate: int, n: nat): nat
    requires cfg.Valid() && rate > 0
  {
    MulLe(0, n, cfg.sampleRate);
    CeilDivNonneg(n * cfg.sampleRate, rate);
    CeilDiv(n * cfg.sampleRate, rate)
  }

  /** Every sample of a whole run, however the stream is divided into pieces. */
  lemma RunSamples(ops: FloatOps, cfg: Config, pieces: seq<PCM>, rate: int, channels: int) returns (o: seq<F32>)
    requires cfg.Valid() && rate > 0 && channels > 0 && Uniform(pieces, rate, channels)
    requires WellCut(cfg, pieces, rate, channels)
    ensures Joined(cfg, RunAll(ops, cfg, pieces)) == Audio(cfg, o)
    ensures |o| == RunFrames(cfg, rate, FrameOf(|Signal(pieces)|, channels)) * cfg.channels
    ensures var p := MakePlan(cfg, rate, channels); var m := Mix(ops, p, Signal(pieces));
      forall i :: 0 <= i < |o| ==> o[i] == OutSample(ops, p, m, FrameOf(i, cfg.channels), i % cfg.channels % p.mid)
  {
    hide RunAll, Segments, AllOutput, Joined, Audio, Uniform, WellCut, OutSample, Output, Mix, Plan.Frames,
         Plan.Outputs, CeilDiv, Signal, MakePlan;
    var p := MakePlan(cfg, rate, channels);
    var src := Signal(pieces);
    var n := FrameOf(|src|, channels);
    SamplesOfRun(ops, cfg, pieces);
    UniformSegments(ops, cfg, pieces, rate, channels);
    LengthClosedForm(cfg, rate, channels, n);
    var frames := RunFrames(cfg, rate, n);
    if src == [] {
      o := [];
      NoOutput(ops, cfg);
      DivUnique(0, channels, 0, 0);
      assert frames == 0 by { CeilExact(0, rate); MulZero(cfg.sampleRate); MulZero(rate); }
    } else {
      var m := Mix(ops, p, src);
      MixFrames(ops, p, src);
      OneSegment(ops, cfg, Streaming(rate, channels, m));
      o := Output(ops, p, m, frames);
      OutputLength(ops, p, m, frames);
      SamplesIs(frames, cfg.channels);
      forall i | 0 <= i < |o|
        ensures o[i] == OutSample(ops, p, m, FrameOf(i, cfg.channels), i % cfg.channels % p.mid)
      {
        OutputAt(ops, p, m, frames, i);
      }
    }
  }

  lemma OneSegment(ops: FloatOps, cfg: Config, st: Stream)
    requires cfg.Valid() && st.Streaming? && st.Valid()
    ensures var p := MakePlan(cfg, st.inRate, st.inChannels);
      AllOutput(ops, cfg, [st]) == Output(ops, p, st.fed, p.TotalFrames(p.Frames(st.fed)))
  {
    assert [st][..0] == [];
  }

  /** The mixed stream that a run filters or passes on. */
  function MixedStream(ops: FloatOps, cfg: Config, pieces: seq<PCM>, rate: int, channels: int): seq<F32>
    requires cfg.Valid() && rate > 0 && channels > 0
  {
    Mix(ops, MakePlan(cfg, rate, channels), Signal(pieces))
  }

  /** For every arithmetic, a run that changes the rate is a convolution: every output
      sample is the sum of the mixed samples around its exact position n * inRate / outRate,
      each times the kernel at its distance, divided by the sum of those weights. */
  lemma RunConvolves(ops: FloatOps, cfg: Config, pieces: seq<PCM>, rate: int, channels: int) returns (o: seq<F32>)
    requires cfg.Valid() && rate > 0 && channels > 0 && Uniform(pieces, rate, channels)
    requires WellCut(cfg, pieces, rate, channels) && rate != cfg.sampleRate
    ensures Joined(cfg, RunAll(ops, cfg, pieces)) == Audio(cfg, o)
    ensures |o| == RunFrames(cfg, rate, FrameOf(|Signal(pieces)|, channels)) * cfg.channels
    ensures var m := MixedStream(ops, cfg, pieces, rate, channels); var mid := Min(channels, cfg.channels);
      forall i :: 0 <= i < |o| ==>
        o[i] == Filtered(ops, rate, cfg.sampleRate, m, mid, FrameOf(i, cfg.channels), i % cfg.channels % mid)
  {
    hide RunAll, Joined, Audio, Uniform, WellCut, OutSample, Filtered, Mix, Signal, RunFrames;
    o := RunSamples(ops, cfg, pieces, rate, channels);
    var p, m := MakePlan(cfg, rate, channels), MixedStream(ops, cfg, pieces, rate, channels);
    assert p.mid == Min(channels, cfg.channels);
    hide MakePlan;
    forall i | 0 <= i < |o|
      ensures o[i] == Filtered(ops, rate, cfg.sampleRate, m, p.mid, FrameOf(i, cfg.channels), i % cfg.channels % p.mid)
    {
      OutSampleIs(ops, cfg, rate, channels, m, FrameOf(i, cfg.channels), i % cfg.channels % p.mid);
    }
  }

  /** Channel c of output frame n for a lone input sample x in channel s of frame f. It is
      heard in the channels congruent to its own, and within the reach of the filter at the
      kernel's weight for the distance to the exact position of the output. */
  function Response(
      ops: FloatOps, cfg: Config, rate: int, channels: int, f: nat, s: nat, x: F32, n: nat, c: nat): F32
    requires cfg.Valid() && rate > 0 && channels > 0
  {
    var mid := Min(channels, cfg.channels);
    var y := Mixed(ops, channels, mid, s, x);
    var same := c % mid == s % mid;
    if rate == cfg.sampleRate then if n == f && same then y else ZERO
    else
      StepExact(rate, cfg.sampleRate);
      var g, reach := Gcd(rate, cfg.sampleRate), HalfTaps(rate, cfg.sampleRate);
      var num, den := rate / g, cfg.sampleRate / g;
      FractionInRange(n, num, den);
      var d, frac := n * num / den - f, n * num % den;
      var near := -(reach as int) <= d < reach;
      (ops.div)(if same && near then (ops.mul)(y, (ops.kernel)(rate, cfg.sampleRate, d, frac)) else ZERO,
                Divisor(ops, rate, cfg.sampleRate, reach, frac))
  }

  lemma SampleLone(
      ops: FloatOps, cfg: Config, rate: int, channels: int, m: seq<F32>, f: nat, s: nat, x: F32, n: nat, c: nat)
    requires cfg.Valid() && rate > 0 && channels > 0 && ZeroIsNeutral(ops)
    requires var mid := Min(channels, cfg.channels);
      Lone(m, f * mid + s % mid, Mixed(ops, channels, mid, s, x))
    ensures var p := MakePlan(cfg, rate, channels);
      OutSample(ops, p, m, n, c % p.mid) == Response(ops, cfg, rate, channels, f, s, x, n, c)
  {
    hide Gcd, HalfTaps, Products, Sum, Mixed, Lone, ZeroIsNeutral, Divisor, TapSum, Norm, At;
    var p := MakePlan(cfg, rate, channels);
    var mid := p.mid;
    DivMod(c, mid);
    DivMod(s, mid);
    var y := Mixed(ops, channels, mid, s, x);
    if rate == cfg.sampleRate {
      LoneAt(m, f * mid + s % mid, y, n * mid + c % mid);
      SamePlace(n, c % mid, f, s % mid, mid);
    } else {
      OutSampleIs(ops, cfg, rate, channels, m, n, c % mid);
      StepExact(rate, cfg.sampleRate);
      var reach, num, den := HalfTaps(rate, cfg.sampleRate), rate / Gcd(rate, cfg.sampleRate),
        cfg.sampleRate / Gcd(rate, cfg.sampleRate);
      FractionInRange(n, num, den);
      ProductsLone(ops, rate, cfg.sampleRate, reach, n * num % den, m, mid, n * num / den, c % mid, f, s % mid, y);
    }
  }

  /** What arrives of a lone sample of a stream of n samples: nothing if it stands in a
      partial frame that the run drops. */
  function Arriving(cfg: Config, rate: int, channels: int, n: nat, at: nat, x: F32): F32
    requires channels > 0
  {
    if FrameOf(at, channels) < FrameOf(n, channels) || KeepsPartial(cfg, rate, channels) then x else ZERO
  }

  /** The impulse response of whole runs: a stream that is zero but for one sample, however
      it is divided into pieces and whatever its shape, gives exactly the response to that
      sample, in every arithmetic in which zero is neutral. */
  lemma ImpulseResponse(ops: FloatOps, cfg: Config, pieces: seq<PCM>, rate: int, channels: int, at: nat, x: F32)
      returns (o: seq<F32>)
    requires cfg.Valid() && rate > 0 && channels > 0 && Uniform(pieces, rate, channels)
    requires WellCut(cfg, pieces, rate, channels) && ZeroIsNeutral(ops) && Lone(Signal(pieces), at, x)
    ensures Joined(cfg, RunAll(ops, cfg, pieces)) == Audio(cfg, o)
    ensures |o| == RunFrames(cfg, rate, FrameOf(|Signal(pieces)|, channels)) * cfg.channels
    ensures var y := Arriving(cfg, rate, channels, |Signal(pieces)|, at, x);
      var f, s := FrameOf(at, channels), at % channels;
      forall i :: 0 <= i < |o| ==>
        o[i] == Response(ops, cfg, rate, channels, f, s, y, FrameOf(i, cfg.channels), i % cfg.channels)
  {
    hide RunAll, Joined, Audio, Uniform, WellCut, OutSample, Response, Mix, Signal, RunFrames, Lone, ZeroIsNeutral,
         Mixed, KeepsPartial;
    o := RunSamples(ops, cfg, pieces, rate, channels);
    var p := MakePlan(cfg, rate, channels);
    assert p.mid == Min(channels, cfg.channels);
    hide MakePlan;
    DivMod(at, channels);
    DivLess(at, channels, 0);
    MixLone(ops, cfg, rate, channels, Signal(pieces), FrameOf(at, channels), at % channels, x);
    var m, y := Mix(ops, p, Signal(pieces)), Arriving(cfg, rate, channels, |Signal(pieces)|, at, x);
    var f, s := FrameOf(at, channels), at % channels;
    assert Lone(m, f * p.mid + s % p.mid, Mixed(ops, channels, p.mid, s, y)) by {
      if y == ZERO { LoneZero(ops, m, f * p.mid + s % p.mid, channels, p.mid, s); }
    }
    forall i | 0 <= i < |o|
      ensures o[i] == Response(ops, cfg, rate, channels, f, s, y, FrameOf(i, cfg.channels), i % cfg.channels)
    {
      SampleLone(ops, cfg, rate, channels, m, f, s, y, FrameOf(i, cfg.channels), i % cfg.channels);
    }
  }

  /** A lone zero is silence, wherever it stands. */
  lemma LoneZero(ops: FloatOps, m: seq<F32>, k: int, channels: nat, mid: nat, s: nat)
    requires ZeroIsNeutral(ops) && 0 < mid && 0 < channels
    ensures Lone(m, 0, ZERO) ==> Lone(m, k, Mixed(ops, channels, mid, s, ZERO))
  {
    DivMod(s, mid);
    CeilDivLess(channels - s % mid, mid, 0);
  }

  /** There an impulse at frame f is heard at output n as the kernel at a distance of
      n * num / den - f whole frames and n * num % den parts of one. */
  lemma EchoHears(
      kernel: (int, int, int, nat) -> F32, cfg: Config, rate: int, channels: int, f: nat, s: nat, n: nat, c: nat)
    requires cfg.Valid() && rate > 0 && channels > 0 && rate != cfg.sampleRate
    ensures var mid := Min(channels, cfg.channels); var g := Gcd(rate, cfg.sampleRate);
      var num, den, reach := rate / g, cfg.sampleRate / g, HalfTaps(rate, cfg.sampleRate);
      && den > 0 && n * num % den >= 0
      && var d := n * num / den - f;
         Response(Echo(kernel), cfg, rate, channels, f, s, ONE, n, c)
         == if c % mid == s % mid && -(reach as int) <= d < reach then kernel(rate, cfg.sampleRate, d, n * num % den)
            else ZERO
  {
    hide Gcd, HalfTaps, Divisor;
    StepExact(rate, cfg.sampleRate);
    FractionInRange(n, rate / Gcd(rate, cfg.sampleRate), cfg.sampleRate / Gcd(rate, cfg.sampleRate));
  }
}
