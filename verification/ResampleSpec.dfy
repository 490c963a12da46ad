/** What the streaming resampler of audio/resample.go computes, stated on whole
    streams: every output frame is one weighted sum over the input extended with
    silence on both sides, and the output is cut into buffers afterwards. No
    cursor, no buffer, no compaction. */
module ResampleSpec {
  import opened Bits
  import opened Float32
  import opened Pcm
  import opened Arith

  /** float32 arithmetic and the sinc table. Everything here holds for every such
      arithmetic, so it holds bit for bit for the rounding of the real one.
      kernel(inRate, outRate, k, frac) is the weight at distance |k + frac / stepDen|. */
  datatype FloatOps = FloatOps(
    add: (F32, F32) -> F32,
    mul: (F32, F32) -> F32,
    div: (F32, F32) -> F32,
    isZero: F32 -> bool,
    ofCount: nat -> F32,
    kernel: (int, int, int, nat) -> F32)

  /** The fixed output parameters of a resampler. */
  datatype Config = Config(format: Format, sampleRate: int, channels: int, frameSize: int) {
    predicate Valid() { Validate(format, sampleRate, channels).Ok? && frameSize >= 0 }
  }

  /** A configuration together with the shape of the input stream and what
      configure derives from the two. */
  datatype Plan = Plan(cfg: Config, inRate: int, inChannels: int, mid: nat, num: nat, den: nat, halfTaps: nat) {
    predicate Valid() {
      && cfg.Valid() && inRate > 0 && inChannels > 0
      && 0 < mid <= cfg.channels && mid <= inChannels
      && num > 0 && den > 0
      && halfTaps >= 1
    }

    /** The kernel reaches at least as far as one step. */
    predicate Covers() { num <= halfTaps * den }

    predicate Filtered() { inRate != cfg.sampleRate }

    /** Whole frames in a stream at mid channels. */
    function Frames(m: seq<F32>): nat
      requires Valid()
    {
      DivLess(|m|, mid, 0);
      |m| / mid
    }

    /** How many output frames read at most k input frames past the first. */
    function Outputs(k: int): nat
      requires Valid()
    {
      if k <= 0 then 0
      else
        MulLe(0, k, den);
        CeilDivNonneg(k * den, num);
        CeilDiv(k * den, num)
    }

    /** Output frames available after n input frames, and after the flush. */
    function ReadyFrames(n: nat): nat
      requires Valid()
    {
      if Filtered() then Outputs(n - halfTaps) else n
    }

    function TotalFrames(n: nat): nat
      requires Valid()
    {
      if Filtered() then Outputs(n) else n
    }
  }

  // ---- the rational step ----

  function Gcd(a: nat, b: nat): (g: nat)
    requires a > 0 || b > 0
    ensures g > 0
    decreases b
  {
    if b == 0 then a else Gcd(b, a % b)
  }

  ghost predicate Divides(d: nat, a: nat) { exists k: nat :: k * d == a }

  lemma {:induction false} GcdDivides(a: nat, b: nat)
    requires a > 0 || b > 0
    ensures Divides(Gcd(a, b), a) && Divides(Gcd(a, b), b)
    decreases b
  {
    if b == 0 {
      assert 1 * a == a && 0 * a == b;
    } else {
      GcdDivides(b, a % b);
      var g := Gcd(b, a % b);
      var i: nat :| i * g == b;
      var j: nat :| j * g == a % b;
      CombineDivides(g, a, b, i, j);
    }
  }

  lemma CombineDivides(g: nat, a: nat, b: nat, i: nat, j: nat)
    requires b > 0 && i * g == b && j * g == a % b
    ensures Divides(g, a)
  {
    DivMod(a, b);
    DivLess(a, b, 0);
    MulAssoc(a / b, i, g);
    Distribute(a / b * i, j, g);
    MulLe(0, a / b, i);
    var k: nat := a / b * i + j;
    assert k * g == a;
  }

  lemma {:induction false} GcdGreatest(a: nat, b: nat, d: nat)
    requires a > 0 || b > 0
    requires Divides(d, a) && Divides(d, b)
    ensures Divides(d, Gcd(a, b))
    decreases b
  {
    if b != 0 {
      var i: nat :| i * d == a;
      var j: nat :| j * d == b;
      DivMod(a, b);
      MulAssoc(a / b, j, d);
      Distribute(i, a / b * j, d);
      CancelLess(i, a / b * j, d);
      assert (i - a / b * j) * d == a % b;
      GcdGreatest(b, a % b, d);
    }
  }

  /** int(math.Ceil(16 / (0.95 * min(1, out / in)))). */
  function HalfTaps(inRate: int, outRate: int): nat
    requires inRate > 0 && outRate > 0
  {
    if outRate >= inRate then CeilDiv(320, 19)
    else CeilDivNonneg(320 * inRate, 19 * outRate); CeilDiv(320 * inRate, 19 * outRate)
  }

  /** configure's derived parameters. */
  function MakePlan(cfg: Config, inRate: int, inChannels: int): (p: Plan)
    requires cfg.Valid() && inRate > 0 && inChannels > 0
    ensures p.Valid() && p.Covers() && p.cfg == cfg && p.inRate == inRate && p.inChannels == inChannels
  {
    var g := Gcd(inRate, cfg.sampleRate);
    StepExact(inRate, cfg.sampleRate);
    HalfTapsCoverStep(inRate, cfg.sampleRate);
    Plan(cfg, inRate, inChannels, if inChannels < cfg.channels then inChannels else cfg.channels,
         inRate / g, cfg.sampleRate / g, HalfTaps(inRate, cfg.sampleRate))
  }

  /** Dividing both rates by their gcd is exact. */
  lemma StepExact(inRate: nat, outRate: nat)
    requires inRate > 0 && outRate > 0
    ensures var g := Gcd(inRate, outRate);
            && inRate / g * g == inRate && outRate / g * g == outRate && inRate / g > 0 && outRate / g > 0
  {
    var g := Gcd(inRate, outRate);
    GcdDivides(inRate, outRate);
    var i: nat :| i * g == inRate;
    var j: nat :| j * g == outRate;
    DivUnique(inRate, g, i, 0);
    DivUnique(outRate, g, j, 0);
  }

  /** The kernel reaches at least as far as one step: the bound behind every
      index and every compaction of the streaming form. */
  lemma HalfTapsCoverStep(inRate: nat, outRate: nat)
    requires inRate > 0 && outRate > 0
    ensures HalfTaps(inRate, outRate) >= 1
    ensures var g := Gcd(inRate, outRate); inRate / g <= HalfTaps(inRate, outRate) * (outRate / g)
  {
    StepExact(inRate, outRate);
    var g, h := Gcd(inRate, outRate), HalfTaps(inRate, outRate);
    HalfTapsCoverRates(inRate, outRate);
    MulAssoc(h, outRate / g, g);
    CancelLess(h * (outRate / g), inRate / g, g);
  }

  lemma HalfTapsCoverRates(inRate: nat, outRate: nat)
    requires inRate > 0 && outRate > 0
    ensures HalfTaps(inRate, outRate) >= 1 && inRate <= HalfTaps(inRate, outRate) * outRate
  {
    if outRate < inRate {
      var h := HalfTaps(inRate, outRate);
      CeilDivLess(320 * inRate, 19 * outRate, h);
      assert h * (19 * outRate) == 19 * (h * outRate);
    }
  }

  /** The kernel's reach is the least whole number of frames that holds 16 zero crossings
      of a sinc whose cutoff is 0.95 times the lower of the two rates. */
  lemma HalfTapsExact(inRate: nat, outRate: nat)
    requires inRate > 0 && outRate > 0
    ensures var h := HalfTaps(inRate, outRate); var lower := Min(inRate, outRate);
      && 95 * lower * h >= 1600 * inRate
      && 95 * lower * (h - 1) < 1600 * inRate
  {
    var h, lower := HalfTaps(inRate, outRate), Min(inRate, outRate);
    if outRate >= inRate {
      assert h == 17;
    } else {
      CeilDivLess(320 * inRate, 19 * outRate, h);
      CeilDivLess(320 * inRate, 19 * outRate, h - 1);
      assert h * (19 * outRate) == 19 * (lower * h) && (h - 1) * (19 * outRate) == 19 * (lower * (h - 1));
      assert 95 * lower * h == 95 * (lower * h) && 95 * lower * (h - 1) == 95 * (lower * (h - 1));
    }
  }

  /** Whole input frames behind output n, and the exact remainder. */
  function Whole(p: Plan, n: nat): nat
    requires p.Valid()
  {
    MulLe(0, n, p.num);
    assert n * p.num / p.den >= 0 by { if n * p.num / p.den < 0 { DivLess(n * p.num, p.den, 0); } }
    n * p.num / p.den
  }

  function Part(p: Plan, n: nat): nat
    requires p.Valid()
  {
    n * p.num % p.den
  }

  /** Adding one step to the cursor by carrying the fraction is exact. */
  lemma CursorStep(p: Plan, n: nat)
    requires p.Valid()
    ensures p.den > 0
    ensures Whole(p, n + 1) == Whole(p, n) + (Part(p, n) + p.num) / p.den
    ensures Part(p, n + 1) == (Part(p, n) + p.num) % p.den
    ensures Whole(p, n) <= Whole(p, n + 1)
    ensures p.Covers() ==> Whole(p, n + 1) <= Whole(p, n) + p.halfTaps
  {
    var num, den := p.num, p.den;
    DivMod(n * num, den);
    MulSucc(n, num);
    var r := n * num % den + num;
    DivMod(r, den);
    Distribute(n * num / den, r / den, den);
    DivUnique((n + 1) * num, den, n * num / den + r / den, r % den);
    DivLess(r, den, p.halfTaps + 1);
    MulSucc(p.halfTaps, den);
    DivLess(r, den, 0);
  }

  lemma CursorStart(p: Plan)
    requires p.Valid()
    ensures Whole(p, 0) == 0 && Part(p, 0) == 0
  {
    DivUnique(0, p.den, 0, 0);
  }

  /** Output n reads at most k frames past the first exactly when n < Outputs(k). */
  lemma OutputsExact(p: Plan, k: int, n: nat)
    requires p.Valid()
    ensures Whole(p, n) < k <==> n < p.Outputs(k)
  {
    if k > 0 {
      DivLess(n * p.num, p.den, k);
      CeilDivLess(k * p.den, p.num, n);
    }
  }

  lemma OutputsMonotone(p: Plan, j: int, k: int)
    requires p.Valid() && j <= k
    ensures p.Outputs(j) <= p.Outputs(k)
  {
    if p.Outputs(j) > p.Outputs(k) {
      OutputsExact(p, j, p.Outputs(k));
      OutputsExact(p, k, p.Outputs(k));
    }
  }

  // ---- samples ----

  /** A stream extended with silence in both directions. */
  function At(m: seq<F32>, i: int): F32 { if 0 <= i < |m| then m[i] else ZERO }

  function Zeros(n: nat): (z: seq<F32>)
    ensures |z| == n && forall i :: 0 <= i < n ==> z[i] == ZERO
  {
    seq(n, _ => ZERO)
  }

  function Weight(ops: FloatOps, p: Plan, frac: nat, i: nat): F32
    requires p.Valid()
  {
    (ops.kernel)(p.inRate, p.cfg.sampleRate, p.halfTaps - 1 - i, frac)
  }

  function WeightSum(ops: FloatOps, p: Plan, frac: nat, k: nat): F32
    requires p.Valid()
  {
    if k == 0 then ZERO else (ops.add)(WeightSum(ops, p, frac, k - 1), Weight(ops, p, frac, k - 1))
  }

  function Norm(ops: FloatOps, p: Plan, frac: nat): F32
    requires p.Valid()
  {
    var s := WeightSum(ops, p, frac, 2 * p.halfTaps);
    if (ops.isZero)(s) then ONE else s
  }

  /** The first k taps of channel c centred after input frame q. */
  function TapSum(ops: FloatOps, p: Plan, m: seq<F32>, q: nat, frac: nat, c: nat, k: nat): F32
    requires p.Valid()
  {
    if k == 0 then ZERO
    else (ops.add)(TapSum(ops, p, m, q, frac, c, k - 1),
                   (ops.mul)(At(m, (q - p.halfTaps + k) * p.mid + c), Weight(ops, p, frac, k - 1)))
  }

  /** Channel c < Mid of output frame n. */
  function OutSample(ops: FloatOps, p: Plan, m: seq<F32>, n: nat, c: nat): F32
    requires p.Valid()
  {
    if p.Filtered() then
      (ops.div)(TapSum(ops, p, m, Whole(p, n), Part(p, n), c, 2 * p.halfTaps), Norm(ops, p, Part(p, n)))
    else At(m, n * p.mid + c)
  }

  /** Output frame n, upmixed by repeating the channels round-robin. */
  function OutFrame(ops: FloatOps, p: Plan, m: seq<F32>, n: nat): (f: seq<F32>)
    requires p.Valid()
    ensures |f| == p.cfg.channels
  {
    seq(p.cfg.channels, c requires 0 <= c < p.cfg.channels => OutSample(ops, p, m, n, c % p.mid))
  }

  /** The first n output frames, interleaved. */
  function Output(ops: FloatOps, p: Plan, m: seq<F32>, n: nat): seq<F32>
    requires p.Valid()
  {
    if n == 0 then [] else Output(ops, p, m, n - 1) + OutFrame(ops, p, m, n - 1)
  }

  /** frames * per, by addition: keeps products out of most proofs. */
  function Samples(frames: nat, per: nat): nat {
    if frames == 0 then 0 else Samples(frames - 1, per) + per
  }

  lemma {:induction false} SamplesIs(frames: nat, per: nat)
    ensures Samples(frames, per) == frames * per
  {
    if frames > 0 {
      SamplesIs(frames - 1, per);
      MulSucc(frames - 1, per);
    }
  }

  lemma {:induction false} SamplesAdd(a: nat, b: nat, per: nat)
    ensures Samples(a + b, per) == Samples(a, per) + Samples(b, per)
  {
    if b > 0 {
      SamplesAdd(a, b - 1, per);
    }
  }

  lemma {:induction false} OutputLength(ops: FloatOps, p: Plan, m: seq<F32>, n: nat)
    requires p.Valid()
    ensures |Output(ops, p, m, n)| == Samples(n, p.cfg.channels)
  {
    if n > 0 {
      OutputLength(ops, p, m, n - 1);
    }
  }

  lemma {:induction false} TapSumStable(
      ops: FloatOps, p: Plan, m: seq<F32>, x: seq<F32>, q: nat, frac: nat, c: nat, k: nat)
    requires p.Valid() && c < p.mid && k <= 2 * p.halfTaps
    requires (q + p.halfTaps + 1) * p.mid <= |m|
    ensures TapSum(ops, p, m, q, frac, c, k) == TapSum(ops, p, m + x, q, frac, c, k)
  {
    if k > 0 {
      TapSumStable(ops, p, m, x, q, frac, c, k - 1);
      var j := q - p.halfTaps + k;
      MulSucc(j, p.mid);
      MulLe(j + 1, q + p.halfTaps + 1, p.mid);
    }
  }

  function ReadyCount(p: Plan, m: seq<F32>): nat
    requires p.Valid()
  {
    p.ReadyFrames(p.Frames(m))
  }

  lemma FrameStable(ops: FloatOps, p: Plan, m: seq<F32>, x: seq<F32>, n: nat)
    requires p.Valid() && n < ReadyCount(p, m)
    ensures OutFrame(ops, p, m, n) == OutFrame(ops, p, m + x, n)
  {
    hide Part, Norm;
    var q := Whole(p, n);
    DivMod(|m|, p.mid);
    if p.Filtered() {
      OutputsExact(p, p.Frames(m) - p.halfTaps, n);
      MulLe(q + p.halfTaps + 1, p.Frames(m), p.mid);
    } else {
      MulLe(n + 1, p.Frames(m), p.mid);
      MulSucc(n, p.mid);
    }
    var before, after := OutFrame(ops, p, m, n), OutFrame(ops, p, m + x, n);
    forall c | 0 <= c < p.cfg.channels
      ensures before[c] == after[c]
    {
      if p.Filtered() {
        TapSumStable(ops, p, m, x, q, Part(p, n), c % p.mid, 2 * p.halfTaps);
      }
    }
    assert before == after;
  }

  /** A frame that is ready never changes, whatever is written later. */
  lemma {:induction false} OutputStable(ops: FloatOps, p: Plan, m: seq<F32>, x: seq<F32>, n: nat)
    requires p.Valid() && n <= ReadyCount(p, m)
    ensures Output(ops, p, m, n) == Output(ops, p, m + x, n)
  {
    if n > 0 {
      OutputStable(ops, p, m, x, n - 1);
      FrameStable(ops, p, m, x, n - 1);
    }
  }

  lemma {:induction false} OutputPrefix(ops: FloatOps, p: Plan, m: seq<F32>, k: nat, n: nat)
    requires p.Valid() && k <= n
    ensures Output(ops, p, m, k) <= Output(ops, p, m, n)
  {
    if k < n {
      OutputPrefix(ops, p, m, k, n - 1);
    }
  }

  // ---- cutting the output into buffers ----

  /** time.Duration(emitted) * time.Second / time.Duration(rate), in int64. */
  function Pts(emitted: nat, rate: int): int
    requires rate > 0
  {
    Quo(Wrap64(emitted * 1_000_000_000), rate)
  }

  /** o[lo..hi], or nothing when that is out of range. */
  function Slice(o: seq<F32>, lo: int, hi: int): seq<F32> { if 0 <= lo <= hi <= |o| then o[lo..hi] else [] }

  /** n frames of the output o starting at frame start. */
  function Buffer(cfg: Config, o: seq<F32>, start: nat, n: nat): PCM
    requires cfg.Valid()
  {
    OfFloat(Slice(o, Samples(start, cfg.channels), Samples(start + n, cfg.channels)),
            cfg.format, cfg.sampleRate, cfg.channels, Pts(start, cfg.sampleRate))
  }

  /** A run of output frames that goes into one buffer. */
  datatype Span = Span(start: nat, n: nat)

  function Render(cfg: Config, o: seq<F32>, spans: seq<Span>): (out: seq<PCM>)
    requires cfg.Valid()
    ensures |out| == |spans|
  {
    seq(|spans|, i requires 0 <= i < |spans| => Buffer(cfg, o, spans[i].start, spans[i].n))
  }

  /** What the next iteration of the cutting loop takes. */
  function NextSize(frameSize: nat, left: nat): nat {
    if frameSize == 0 || left < frameSize then left else frameSize
  }

  /** Cut frames start..total: full buffers of frameSize frames, then, if final,
      whatever is left; with frameSize 0, one buffer of everything. */
  function Cut(frameSize: nat, start: nat, total: nat, final: bool): seq<Span>
    requires start <= total
    decreases total - start
  {
    var n := NextSize(frameSize, total - start);
    if start == total || (n < frameSize && !final) then []
    else [Span(start, n)] + Cut(frameSize, start + n, total, final)
  }

  /** Frames that one round of cutting takes out of the available ones. */
  function Taken(frameSize: nat, available: nat, final: bool): (k: nat)
    ensures k <= available
  {
    var n := NextSize(frameSize, available);
    if available == 0 || (n < frameSize && !final) then 0
    else n + Taken(frameSize, available - n, final)
  }

  /** Where the cutting loop stands after taking some of the available frames. */
  ghost predicate Cutting(frameSize: nat, first: nat, available: nat, final: bool, taken: nat, done: seq<Span>)
    requires taken <= available
  {
    && (frameSize == 0 ==> taken == 0 || taken == available)
    && taken + Taken(frameSize, available - taken, final) == Taken(frameSize, available, final)
    && done + Cut(frameSize, first + taken, first + available, final) == Cut(frameSize, first, first + available, final)
  }

  lemma NothingToCut(cfg: Config, o: seq<F32>, start: nat, final: bool)
    requires cfg.Valid()
    ensures Render(cfg, o, Cut(cfg.frameSize, start, start, final)) == [] && Taken(cfg.frameSize, 0, final) == 0
  {
  }

  lemma CuttingStart(frameSize: nat, first: nat, available: nat, final: bool)
    ensures Cutting(frameSize, first, available, final, 0, [])
  {
  }

  lemma RenderAppend(cfg: Config, o: seq<F32>, done: seq<Span>, s: Span)
    requires cfg.Valid()
    ensures Render(cfg, o, done + [s]) == Render(cfg, o, done) + [Buffer(cfg, o, s.start, s.n)]
  {
  }

  lemma {:induction false} CuttingStep(
      frameSize: nat, first: nat, available: nat, final: bool, taken: nat, done: seq<Span>, n: nat)
    requires taken < available && Cutting(frameSize, first, available, final, taken, done)
    requires n == NextSize(frameSize, available - taken) && (frameSize <= n || final)
    ensures taken + n <= available
    ensures Cutting(frameSize, first, available, final, taken + n, done + [Span(first + taken, n)])
  {
    var rest := Cut(frameSize, first + (taken + n), first + available, final);
    assert Cut(frameSize, first + taken, first + available, final) == [Span(first + taken, n)] + rest;
    assert done + ([Span(first + taken, n)] + rest) == (done + [Span(first + taken, n)]) + rest;
  }

  lemma {:induction false} CuttingDone(
      frameSize: nat, first: nat, available: nat, final: bool, taken: nat, done: seq<Span>)
    requires taken <= available && Cutting(frameSize, first, available, final, taken, done)
    requires taken == available || (NextSize(frameSize, available - taken) < frameSize && !final)
    ensures taken == Taken(frameSize, available, final)
    ensures done == Cut(frameSize, first, first + available, final)
  {
  }

  // ---- whole-stream semantics of Write and Flush ----

  /** Everything a resampler remembers: the input shape and all of the stream so
      far, as Mid-channel singles. */
  datatype Stream = Fresh | Streaming(inRate: int, inChannels: int, fed: seq<F32>) {
    predicate Valid() { Streaming? ==> inRate > 0 && inChannels > 0 }

    predicate Matches(pcm: PCM) { Streaming? && inRate == pcm.sampleRate && inChannels == pcm.channels }
  }

  /** Sum and count of the input channels s, s + mid, ... of the frame at base. */
  function FoldChannels(
      ops: FloatOps, src: seq<F32>, base: nat, channels: nat, mid: nat, s: nat, acc: F32, n: nat): (F32, nat)
    requires mid > 0
    decreases channels - s
  {
    if s >= channels then (acc, n)
    else FoldChannels(ops, src, base, channels, mid, s + mid, (ops.add)(acc, At(src, base + s)), n + 1)
  }

  function Average(ops: FloatOps, src: seq<F32>, base: nat, channels: nat, mid: nat, c: nat): F32
    requires mid > 0
  {
    var (sum, n) := FoldChannels(ops, src, base, channels, mid, c, ZERO, 0);
    (ops.div)(sum, (ops.ofCount)(n))
  }

  function Downmix(ops: FloatOps, src: seq<F32>, channels: nat, mid: nat): (r: seq<F32>)
    requires 0 < mid && 0 < channels
    ensures |r| == |src| / channels * mid
  {
    DivLess(|src|, channels, 0);
    MulLe(0, |src| / channels, mid);
    seq(|src| / channels * mid, j requires 0 <= j < |src| / channels * mid =>
      assert j / mid * channels >= 0 by { DivLess(j, mid, 0); MulLe(0, j / mid, channels); }
      Average(ops, src, j / mid * channels, channels, mid, j % mid))
  }

  /** What singles at the input channel count contribute to the stream. */
  function Mix(ops: FloatOps, p: Plan, src: seq<F32>): seq<F32>
    requires p.Valid()
  {
    if p.inChannels == p.mid then
      if p.Filtered() then src else WholePrefix(src, p.mid)
    else Downmix(ops, src, p.inChannels, p.mid)
  }

  /** What a buffer contributes to the stream. */
  function Contribution(ops: FloatOps, p: Plan, pcm: PCM): seq<F32>
    requires p.Valid()
  {
    Mix(ops, p, pcm.Float())
  }

  function TotalCount(p: Plan, m: seq<F32>): nat
    requires p.Valid()
  {
    p.TotalFrames(p.Frames(m))
  }

  /** Frames handed out before the flush. */
  function Emitted(p: Plan, m: seq<F32>): nat
    requires p.Valid()
  {
    Taken(p.cfg.frameSize, ReadyCount(p, m), false)
  }

  lemma ReadyWithinTotal(p: Plan, m: seq<F32>)
    requires p.Valid()
    ensures Emitted(p, m) <= ReadyCount(p, m) <= TotalCount(p, m)
  {
    OutputsMonotone(p, p.Frames(m) - p.halfTaps, p.Frames(m));
  }

  lemma ReadyGrows(p: Plan, m: seq<F32>, x: seq<F32>)
    requires p.Valid()
    ensures ReadyCount(p, m) <= ReadyCount(p, m + x)
    ensures Emitted(p, m) <= ReadyCount(p, m + x)
  {
    DivMod(|m|, p.mid);
    if p.Frames(m) > p.Frames(m + x) {
      DivLess(|m + x|, p.mid, p.Frames(m));
    }
    OutputsMonotone(p, p.Frames(m) - p.halfTaps, p.Frames(m + x) - p.halfTaps);
  }

  /** An empty stream has nothing ready. */
  lemma NothingReady(p: Plan)
    requires p.Valid()
    ensures ReadyCount(p, []) == 0 && Emitted(p, []) == 0
  {
    DivUnique(0, p.mid, 0, 0);
  }

  /** Cutting what earlier rounds left behind reaches the same point as cutting
      everything at once. */
  lemma EmittedAgain(p: Plan, m: seq<F32>, x: seq<F32>)
    requires p.Valid()
    ensures Emitted(p, m) <= ReadyCount(p, m + x)
    ensures Emitted(p, m) + Taken(p.cfg.frameSize, ReadyCount(p, m + x) - Emitted(p, m), false) == Emitted(p, m + x)
  {
    ReadyGrows(p, m, x);
    TakenAgain(p.cfg.frameSize, ReadyCount(p, m), ReadyCount(p, m + x));
  }

  lemma TakenStep(frameSize: nat, n: nat)
    ensures frameSize == 0 ==> Taken(frameSize, n, false) == n
    ensures 0 < frameSize <= n ==> Taken(frameSize, n, false) == frameSize + Taken(frameSize, n - frameSize, false)
    ensures n < frameSize ==> Taken(frameSize, n, false) == 0
  {
  }

  lemma {:induction false} TakenAgain(frameSize: nat, a: nat, b: nat)
    requires a <= b
    ensures var k := Taken(frameSize, a, false); k + Taken(frameSize, b - k, false) == Taken(frameSize, b, false)
  {
    hide Taken;
    TakenStep(frameSize, a);
    TakenStep(frameSize, b);
    if frameSize == 0 {
      TakenStep(frameSize, b - a);
    } else if frameSize <= a {
      TakenAgain(frameSize, a - frameSize, b - frameSize);
    }
  }

  /** The buffers a Flush returns. */
  function FlushOut(ops: FloatOps, cfg: Config, st: Stream): seq<PCM>
    requires cfg.Valid() && st.Valid()
  {
    match st
    case Fresh => []
    case Streaming(rate, channels, m) =>
      var p := MakePlan(cfg, rate, channels);
      ReadyWithinTotal(p, m);
      Render(cfg, Output(ops, p, m, TotalCount(p, m)), Cut(cfg.frameSize, Emitted(p, m), TotalCount(p, m), true))
  }

  /** The stream after a Write of a usable buffer. */
  function Extend(ops: FloatOps, cfg: Config, st: Stream, pcm: PCM): (r: Stream)
    requires cfg.Valid() && pcm.Valid()
    ensures r.Streaming? && r.Valid() && r.Matches(pcm)
  {
    var before := if st.Matches(pcm) then st.fed else [];
    Streaming(pcm.sampleRate, pcm.channels,
              before + Contribution(ops, MakePlan(cfg, pcm.sampleRate, pcm.channels), pcm))
  }

  /** The buffers a Write of a usable buffer returns after any drained ones. */
  function WriteOut(ops: FloatOps, cfg: Config, st: Stream, pcm: PCM): seq<PCM>
    requires cfg.Valid() && pcm.Valid()
  {
    var p := MakePlan(cfg, pcm.sampleRate, pcm.channels);
    var before := if st.Matches(pcm) then st.fed else [];
    var after := Extend(ops, cfg, st, pcm).fed;
    ReadyGrows(p, before, Contribution(ops, p, pcm));
    Render(cfg, Output(ops, p, after, ReadyCount(p, after)),
           Cut(cfg.frameSize, Emitted(p, before), ReadyCount(p, after), false))
  }

  /** Write as a function of the whole stream so far. */
  function WriteStep(ops: FloatOps, cfg: Config, st: Stream, pcm: PCM): (r: (Stream, Result<seq<PCM>>))
    requires cfg.Valid() && st.Valid()
    ensures r.0.Valid()
  {
    if pcm.IsEmpty() then (st, Ok([]))
    else
      match Validate(pcm.format, pcm.sampleRate, pcm.channels)
      case Err(e) => (st, Err(e))
      case Ok(_) =>
        var drained := if st.Matches(pcm) then [] else FlushOut(ops, cfg, st);
        (Extend(ops, cfg, st, pcm), Ok(drained + WriteOut(ops, cfg, st, pcm)))
  }
}
