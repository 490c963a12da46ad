/** When the way a stream is divided into Writes shows: split invariance with its exact
    condition, on the lengths of the pieces alone. */
module ResampleSplit {
  import opened Bits
  import opened Float32
  import opened Pcm
  import opened Arith
  import opened ResampleSpec
  import opened ResampleLaws

  // ---- divisions ----

  function Sum(lens: seq<nat>): nat {
    if lens == [] then 0 else Sum(lens[..|lens| - 1]) + lens[|lens| - 1]
  }

  ghost predicate HasLengths(pieces: seq<PCM>, lens: seq<nat>) {
    |pieces| == |lens| && forall i :: 0 <= i < |pieces| ==> pieces[i].NumSamples() == lens[i]
  }

  /** Every piece begins between two frames or in the partial frame that ends the stream,
      unless partial frames are kept. */
  ghost predicate GoodLengths(cfg: Config, rate: int, channels: int, lens: seq<nat>)
    requires channels > 0
  {
    KeepsPartial(cfg, rate, channels) || forall i :: 0 <= i < |lens| ==> GoodCut(Sum(lens[..i]), Sum(lens), channels)
  }

  /** The whole stream in one Write. */
  function AtOnce(pieces: seq<PCM>, rate: int, channels: int): seq<PCM> {
    [PCM(FormatF32, rate, channels, 0, [], Signal(pieces))]
  }

  /** The division does not show: same samples, and with a frame size same buffers. */
  ghost predicate DoesNotShow(ops: FloatOps, cfg: Config, pieces: seq<PCM>, rate: int, channels: int)
    requires cfg.Valid()
  {
    var one := AtOnce(pieces, rate, channels);
    && Joined(cfg, RunAll(ops, cfg, pieces)) == Joined(cfg, RunAll(ops, cfg, one))
    && (cfg.frameSize > 0 ==> RunAll(ops, cfg, pieces) == RunAll(ops, cfg, one))
  }

  lemma {:induction false} SignalLength(pieces: seq<PCM>, lens: seq<nat>, i: nat)
    requires HasLengths(pieces, lens) && i <= |lens|
    ensures |Signal(pieces[..i])| == Sum(lens[..i])
    decreases i
  {
    if i > 0 {
      SignalLength(pieces, lens, i - 1);
      assert pieces[..i][..i - 1] == pieces[..i - 1] && lens[..i][..i - 1] == lens[..i - 1];
    }
  }

  lemma LengthsCut(cfg: Config, pieces: seq<PCM>, rate: int, channels: int, lens: seq<nat>)
    requires channels > 0 && HasLengths(pieces, lens) && GoodLengths(cfg, rate, channels, lens)
    ensures WellCut(cfg, pieces, rate, channels)
  {
    hide GoodCut, Signal, Sum, KeepsPartial;
    assert pieces[..|pieces|] == pieces && lens[..|lens|] == lens;
    SignalLength(pieces, lens, |lens|);
    forall i | 0 <= i < |pieces| ensures |Signal(pieces[..i])| == Sum(lens[..i]) {
      SignalLength(pieces, lens, i);
    }
  }

  lemma AtOnceCut(cfg: Config, pieces: seq<PCM>, rate: int, channels: int)
    requires cfg.Valid() && rate > 0 && channels > 0
    ensures var one := AtOnce(pieces, rate, channels);
      Signal(one) == Signal(pieces) && Uniform(one, rate, channels) && WellCut(cfg, one, rate, channels)
  {
    hide GoodCut;
    var one := AtOnce(pieces, rate, channels);
    assert one[..0] == [];
    SignalOfOne(one[0]);
    OneCut(|Signal(one)|, channels);
  }

  /** Sufficient: with good lengths no division shows, in any arithmetic. */
  lemma GoodLengthsSuffice(ops: FloatOps, cfg: Config, pieces: seq<PCM>, rate: int, channels: int, lens: seq<nat>)
    requires cfg.Valid() && rate > 0 && channels > 0 && Uniform(pieces, rate, channels) && HasLengths(pieces, lens)
    requires GoodLengths(cfg, rate, channels, lens)
    ensures DoesNotShow(ops, cfg, pieces, rate, channels)
  {
    hide RunAll, Joined, Signal, WellCut, Uniform, GoodLengths, HasLengths, AtOnce;
    LengthsCut(cfg, pieces, rate, channels, lens);
    AtOnceCut(cfg, pieces, rate, channels);
    SplitInvariance(ops, cfg, pieces, AtOnce(pieces, rate, channels), rate, channels);
  }

  lemma OneCut(total: nat, channels: int)
    requires channels > 0
    ensures GoodCut(0, total, channels)
  {
    DivUnique(0, channels, 0, 0);
  }

  // ---- an arithmetic in which nothing cancels ----

  const MARK: F32 := S16ToF32(1)

  const KEEP := FloatOps(
    (x: F32, y: F32) => if x == ZERO then y else x,
    (x: F32, w: F32) => x,
    (x: F32, w: F32) => x,
    (x: F32) => false,
    (n: nat) => ONE,
    (a: int, b: int, k: int, frac: nat) => ONE)

  ghost predicate Silent(s: seq<F32>) { forall i :: 0 <= i < |s| ==> s[i] == ZERO }

  /** Zero everywhere but at k. */
  ghost predicate IsSpike(s: seq<F32>, k: int) {
    0 <= k < |s| && s[k] == MARK && forall i :: 0 <= i < |s| && i != k ==> s[i] == ZERO
  }

  /** Zero from lo up to hi. */
  ghost predicate QuietIn(s: seq<F32>, lo: int, hi: int) { forall i :: lo <= i < hi ==> At(s, i) == ZERO }

  lemma {:induction false} FoldKeeps(src: seq<F32>, base: nat, channels: nat, mid: nat, s: nat, acc: F32, n: nat)
    requires mid > 0 && QuietIn(src, base + s, base + channels)
    ensures FoldChannels(KEEP, src, base, channels, mid, s, acc, n).0 == acc
    decreases channels - s
  {
    if s < channels {
      assert At(src, base + s) == ZERO;
      FoldKeeps(src, base, channels, mid, s + mid, acc, n + 1);
    }
  }

  lemma AverageZero(src: seq<F32>, base: nat, channels: nat, mid: nat, c: nat)
    requires mid > 0 && QuietIn(src, base + c, base + channels)
    ensures Average(KEEP, src, base, channels, mid, c) == ZERO
  {
    FoldKeeps(src, base, channels, mid, c, ZERO, 0);
  }

  lemma AverageMark(src: seq<F32>, base: nat, channels: nat, mid: nat)
    requires mid > 0 && channels > 0 && At(src, base) == MARK && QuietIn(src, base + 1, base + channels)
    ensures Average(KEEP, src, base, channels, mid, 0) == MARK
  {
    FoldKeeps(src, base, channels, mid, mid, MARK, 1);
  }

  lemma DownmixSilent(s: seq<F32>, channels: nat, mid: nat, j: nat)
    requires 0 < mid && 0 < channels && Silent(s) && j < |s| / channels * mid
    ensures Downmix(KEEP, s, channels, mid)[j] == ZERO
  {
    hide Downmix, Average;
    DownmixAt(KEEP, s, channels, mid, j);
    var base := j / mid * channels;
    assert QuietIn(s, base + j % mid, base + channels);
    AverageZero(s, base, channels, mid, j % mid);
  }

  lemma MixSilent(p: Plan, s: seq<F32>)
    requires p.Valid() && Silent(s)
    ensures Silent(Mix(KEEP, p, s))
  {
    hide Downmix;
    if p.inChannels != p.mid {
      var m := Downmix(KEEP, s, p.inChannels, p.mid);
      forall j | 0 <= j < |m| ensures m[j] == ZERO {
        DownmixSilent(s, p.inChannels, p.mid, j);
      }
    }
  }

  /** The first sample of a whole frame reaches the first channel of that frame, and
      nothing else. */
  lemma MixSpike(p: Plan, s: seq<F32>, f: nat)
    requires p.Valid() && f < |s| / p.inChannels && IsSpike(s, f * p.inChannels)
    ensures IsSpike(Mix(KEEP, p, s), f * p.mid)
  {
    var ch, m := p.inChannels, Mix(KEEP, p, s);
    DivMod(|s|, ch);
    MulLe(f + 1, |s| / ch, ch);
    MulSucc(f, ch);
    MulLe(0, f, p.mid);
    if ch != p.mid {
      hide Downmix, Average;
      MulLt(f, |s| / ch, p.mid);
      forall j | 0 <= j < |m| ensures m[j] == if j == f * p.mid then MARK else ZERO {
        DownmixSpike(p, s, f, j);
      }
    }
  }

  lemma DownmixSpike(p: Plan, s: seq<F32>, f: nat, j: nat)
    requires p.Valid() && p.inChannels != p.mid && IsSpike(s, f * p.inChannels) && j < |s| / p.inChannels * p.mid
    ensures Downmix(KEEP, s, p.inChannels, p.mid)[j] == if j == f * p.mid then MARK else ZERO
  {
    hide Downmix, Average, IsSpike;
    DownmixAt(KEEP, s, p.inChannels, p.mid, j);
    DivMod(j, p.mid);
    DivLess(j, p.mid, 0);
    SpikeAverage(s, f, j / p.mid, p.inChannels, p.mid, j % p.mid);
    SameFrame(f, j / p.mid, p.mid, j % p.mid);
  }

  lemma SpikeAverage(s: seq<F32>, f: nat, q: nat, ch: nat, mid: nat, c: nat)
    requires ch > 0 && mid > 0 && IsSpike(s, f * ch) && q * ch >= 0
    ensures Average(KEEP, s, q * ch, ch, mid, c) == if q == f && c == 0 then MARK else ZERO
  {
    hide Average, IsSpike, At;
    var base := q * ch;
    SpikeFrame(s, f, q, ch, base);
    if q == f && c == 0 {
      AverageMark(s, base, ch, mid);
    } else {
      assert QuietIn(s, base + c, base + ch);
      AverageZero(s, base, ch, mid, c);
    }
  }

  /** The spike is the first sample of frame f, and no other frame has any. */
  lemma SpikeFrame(s: seq<F32>, f: nat, q: nat, ch: nat, base: int)
    requires ch > 0 && IsSpike(s, f * ch) && base == q * ch
    ensures QuietIn(s, base + 1, base + ch)
    ensures if q == f then At(s, base) == MARK else At(s, base) == ZERO
  {
    forall i | base <= i < base + ch ensures At(s, i) == if q == f && i == base then MARK else ZERO {
      SameFrame(f, q, ch, i - base);
    }
    assert base <= base < base + ch;
  }

  lemma SameFrame(f: nat, q: nat, ch: nat, d: nat)
    requires d < ch
    ensures q * ch + d == f * ch <==> q == f && d == 0
  {
    if q < f {
      MulLe(q + 1, f, ch);
      MulSucc(q, ch);
    } else if q > f {
      MulLe(f + 1, q, ch);
      MulSucc(f, ch);
    }
  }

  // ---- from stream to output ----

  lemma {:induction false} TapSumSilent(p: Plan, m: seq<F32>, q: nat, frac: nat, c: nat, k: nat)
    requires p.Valid() && Silent(m)
    ensures TapSum(KEEP, p, m, q, frac, c, k) == ZERO
  {
    if k > 0 { TapSumSilent(p, m, q, frac, c, k - 1); }
  }

  lemma {:induction false} OutputSilent(p: Plan, m: seq<F32>, n: nat)
    requires p.Valid() && Silent(m)
    ensures Silent(Output(KEEP, p, m, n))
  {
    if n > 0 {
      OutputSilent(p, m, n - 1);
      var f := OutFrame(KEEP, p, m, n - 1);
      forall c | 0 <= c < |f| ensures f[c] == ZERO {
        if p.Filtered() {
          TapSumSilent(p, m, Whole(p, n - 1), Part(p, n - 1), c % p.mid, 2 * p.halfTaps);
        }
      }
    }
  }

  /** The taps meet the spike exactly when its frame is among theirs. */
  lemma {:induction false} TapSumSpike(p: Plan, m: seq<F32>, f: nat, q: nat, frac: nat, k: nat)
    requires p.Valid() && IsSpike(m, f * p.mid)
    ensures TapSum(KEEP, p, m, q, frac, 0, k) == if q - p.halfTaps < f <= q - p.halfTaps + k then MARK else ZERO
  {
    if k > 0 {
      TapSumSpike(p, m, f, q, frac, k - 1);
      var g := q - p.halfTaps + k;
      if g < f { MulLt(g, f, p.mid); }
      if g > f { MulLt(f, g, p.mid); }
      assert At(m, g * p.mid + 0) == if g == f then MARK else ZERO;
    }
  }

  /** Some output frame reads input frame f. */
  lemma CoveringOutput(p: Plan, f: nat) returns (n: nat)
    requires p.Valid() && p.Covers()
    ensures Whole(p, n) <= f <= Whole(p, n) + p.halfTaps
  {
    var x := f * p.den;
    MulLe(0, f, p.den);
    DivMod(x, p.num);
    DivLess(x, p.num, 0);
    n := x / p.num;
    DivMod(n * p.num, p.den);
    DivLess(n * p.num, p.den, f + 1);
    MulSucc(f, p.den);
    if f > Whole(p, n) + p.halfTaps {
      MulLe(Whole(p, n) + p.halfTaps + 1, f, p.den);
      Distribute(Whole(p, n) + 1, p.halfTaps, p.den);
      MulSucc(Whole(p, n), p.den);
      assert false;
    }
  }

  lemma SpikeSample(p: Plan, m: seq<F32>, f: nat) returns (n: nat)
    requires p.Valid() && p.Covers() && IsSpike(m, f * p.mid) && f < p.Frames(m)
    ensures n < TotalCount(p, m) && OutSample(KEEP, p, m, n, 0) == MARK
  {
    hide Norm, Part, IsSpike;
    n := f;
    if p.Filtered() {
      n := CoveringOutput(p, f);
      OutputsExact(p, p.Frames(m), n);
      TapSumSpike(p, m, f, Whole(p, n), Part(p, n), 2 * p.halfTaps);
    } else {
      assert m[f * p.mid] == MARK by { SpikeAt(m, f * p.mid); }
    }
  }

  lemma SpikeAt(s: seq<F32>, k: int)
    requires IsSpike(s, k)
    ensures 0 <= k < |s| && s[k] == MARK
  {
  }

  /** A spike in the stream is heard in the output. */
  lemma OutputSpike(p: Plan, m: seq<F32>, f: nat) returns (k: nat)
    requires p.Valid() && p.Covers() && IsSpike(m, f * p.mid) && f < p.Frames(m)
    ensures k < |Output(KEEP, p, m, TotalCount(p, m))| && Output(KEEP, p, m, TotalCount(p, m))[k] == MARK
  {
    hide OutSample, TotalCount, IsSpike;
    var n := SpikeSample(p, m, f);
    DivUnique(0, p.mid, 0, 0);
    k := |Output(KEEP, p, m, n)|;
    assert OutFrame(KEEP, p, m, n)[0] == MARK;
    assert Output(KEEP, p, m, n + 1)[k] == MARK;
    OutputPrefix(KEEP, p, m, n + 1, TotalCount(p, m));
  }

  // ---- necessary ----

  /** Pieces that contribute silence give silence. */
  lemma {:induction false} SilentSegments(cfg: Config, pieces: seq<PCM>, rate: int, channels: int)
    requires cfg.Valid() && rate > 0 && channels > 0 && Uniform(pieces, rate, channels)
    requires forall i :: 0 <= i < |pieces| ==> Silent(Mix(KEEP, MakePlan(cfg, rate, channels), pieces[i].Float()))
    ensures var segs := Segments(KEEP, cfg, pieces);
      segs == [] || (segs == [Streaming(rate, channels, segs[0].fed)] && Silent(segs[0].fed))
    decreases |pieces|
  {
    if pieces != [] {
      hide Mix, MakePlan;
      SilentSegments(cfg, pieces[..|pieces| - 1], rate, channels);
    }
  }

  lemma SilentRun(cfg: Config, pieces: seq<PCM>, rate: int, channels: int) returns (o: seq<F32>)
    requires cfg.Valid() && rate > 0 && channels > 0 && Uniform(pieces, rate, channels)
    requires forall i :: 0 <= i < |pieces| ==> Silent(Mix(KEEP, MakePlan(cfg, rate, channels), pieces[i].Float()))
    ensures Silent(o) && Joined(cfg, RunAll(KEEP, cfg, pieces)) == Audio(cfg, o)
  {
    hide Mix, Joined, Audio, RunAll, Output, Segments;
    SilentSegments(cfg, pieces, rate, channels);
    SamplesOfRun(KEEP, cfg, pieces);
    var segs := Segments(KEEP, cfg, pieces);
    o := AllOutput(KEEP, cfg, segs);
    if segs != [] {
      var p := MakePlan(cfg, rate, channels);
      OutputSilent(p, segs[0].fed, TotalCount(p, segs[0].fed));
      assert segs[..0] == [];
      assert o == Output(KEEP, p, segs[0].fed, TotalCount(p, segs[0].fed));
    }
  }

  lemma SpikeRun(cfg: Config, one: seq<PCM>, rate: int, channels: int, f: nat) returns (o: seq<F32>, k: nat)
    requires cfg.Valid() && rate > 0 && channels > 0 && Uniform(one, rate, channels)
    requires WellCut(cfg, one, rate, channels)
    requires f < |Signal(one)| / channels && IsSpike(Signal(one), f * channels)
    ensures k < |o| && o[k] == MARK && Joined(cfg, RunAll(KEEP, cfg, one)) == Audio(cfg, o)
  {
    hide Mix, Joined, Audio, RunAll, Output, Segments;
    var p := MakePlan(cfg, rate, channels);
    var m := Mix(KEEP, p, Signal(one));
    UniformSegments(KEEP, cfg, one, rate, channels);
    SamplesOfRun(KEEP, cfg, one);
    MixSpike(p, Signal(one), f);
    MixFrames(KEEP, p, Signal(one));
    k := OutputSpike(p, m, f);
    var segs := Segments(KEEP, cfg, one);
    o := AllOutput(KEEP, cfg, segs);
    assert segs[..0] == [];
    assert o == Output(KEEP, p, m, TotalCount(p, m));
  }

  /** Silence and a mark sound different in either format. */
  lemma MarkIsHeard(cfg: Config, a: seq<F32>, b: seq<F32>, k: nat)
    requires cfg.Valid() && Silent(a) && k < |b| && b[k] == MARK
    ensures Audio(cfg, a) != Audio(cfg, b)
  {
    S16RoundTrip(1);
    S16RoundTrip(0);
    if |a| == |b| {
      assert a[k] == ZERO;
      assert F32ToS16(a[k]) != F32ToS16(b[k]);
      if !cfg.format.FormatF32? { assert Narrow(a)[k] != Narrow(b)[k]; }
    }
  }

  function Piece(rate: int, channels: int, samples: seq<F32>): PCM { PCM(FormatF32, rate, channels, 0, [], samples) }

  /** Silence but for a mark. */
  function MarkAt(n: nat, at: nat): (s: seq<F32>)
    requires at < n
    ensures |s| == n
  {
    Zeros(n)[at := MARK]
  }

  /** Silent pieces of the given lengths, but for a mark at offset `at` of piece j. */
  function Marked(rate: int, channels: int, lens: seq<nat>, j: nat, at: nat): (pieces: seq<PCM>)
    requires j < |lens| && at < lens[j]
    ensures |pieces| == |lens|
  {
    seq(|lens|, i requires 0 <= i < |lens| =>
      Piece(rate, channels, if i == j then MarkAt(lens[i], at) else Zeros(lens[i])))
  }

  /** Pieces that sound like that. */
  ghost predicate SoundsMarked(pieces: seq<PCM>, lens: seq<nat>, j: nat, at: nat) {
    && |pieces| == |lens| && j < |lens| && at < lens[j]
    && forall i :: 0 <= i < |pieces| ==> pieces[i].Float() == if i == j then MarkAt(lens[i], at) else Zeros(lens[i])
  }

  lemma MarkInside(pieces: seq<PCM>, lens: seq<nat>, j: nat, at: nat)
    requires SoundsMarked(pieces, lens, j, at)
    ensures j < |lens| == |pieces|
  {
  }

  lemma Sound(pieces: seq<PCM>, lens: seq<nat>, j: nat, at: nat, i: nat)
    requires SoundsMarked(pieces, lens, j, at) && i < |pieces|
    ensures j < |lens| == |pieces| && at < lens[j]
    ensures pieces[i].Float() == if i == j then MarkAt(lens[i], at) else Zeros(lens[i])
  {
  }

  lemma MarkedSounds(rate: int, channels: int, lens: seq<nat>, j: nat, at: nat)
    requires j < |lens| && at < lens[j]
    ensures SoundsMarked(Marked(rate, channels, lens, j, at), lens, j, at)
  {
  }

  lemma SignalStep(pieces: seq<PCM>, i: nat)
    requires i < |pieces|
    ensures Signal(pieces[..i + 1]) == Signal(pieces[..i]) + pieces[i].Float()
  {
    assert pieces[..i + 1][..i] == pieces[..i];
  }

  lemma SilentNothing(pieces: seq<PCM>)
    ensures Silent(Signal(pieces[..0]))
  {
  }

  lemma {:induction false} SilentBefore(pieces: seq<PCM>, lens: seq<nat>, j: nat, at: nat, i: nat)
    requires SoundsMarked(pieces, lens, j, at) && i <= j
    ensures Silent(Signal(pieces[..i]))
    decreases i
  {
    hide *;
    if i == 0 {
      SilentNothing(pieces);
    } else {
      MarkInside(pieces, lens, j, at);
      Sound(pieces, lens, j, at, i - 1);
      SilentBefore(pieces, lens, j, at, i - 1);
      SignalStep(pieces, i - 1);
      AppendZeros(Signal(pieces[..i - 1]), lens[i - 1], 0);
    }
  }

  /** The mark is the only sound, at its place in the stream. */
  lemma {:induction false} MarkedSignal(pieces: seq<PCM>, lens: seq<nat>, j: nat, at: nat, i: nat)
    requires SoundsMarked(pieces, lens, j, at) && j < i <= |pieces|
    ensures IsSpike(Signal(pieces[..i]), |Signal(pieces[..j])| + at)
    decreases i
  {
    hide *;
    Sound(pieces, lens, j, at, i - 1);
    var before := Signal(pieces[..i - 1]);
    SignalStep(pieces, i - 1);
    if i - 1 == j {
      SilentBefore(pieces, lens, j, at, j);
      AppendMark(before, lens[j], at);
    } else {
      MarkedSignal(pieces, lens, j, at, i - 1);
      AppendZeros(before, lens[i - 1], |Signal(pieces[..j])| + at);
    }
  }

  /** Silence keeps silence silent and a spike a spike. */
  lemma AppendZeros(s: seq<F32>, n: nat, k: int)
    ensures Silent(s) ==> Silent(s + Zeros(n))
    ensures IsSpike(s, k) ==> IsSpike(s + Zeros(n), k)
  {
  }

  /** A mark makes silence a spike. */
  lemma AppendMark(s: seq<F32>, n: nat, at: nat)
    requires Silent(s) && at < n
    ensures IsSpike(s + MarkAt(n, at), |s| + at)
  {
  }

  /** The first piece that begins inside a whole frame. */
  lemma {:induction false} FirstBadCut(lens: seq<nat>, channels: int, total: nat, i: nat) returns (j: nat)
    requires channels > 0 && i < |lens| && !GoodCut(Sum(lens[..i]), total, channels)
    ensures 0 < j < |lens| && !GoodCut(Sum(lens[..j]), total, channels)
    ensures GoodCut(Sum(lens[..j - 1]), total, channels)
    decreases i
  {
    OneCut(total, channels);
    if GoodCut(Sum(lens[..i - 1]), total, channels) {
      j := i;
    } else {
      j := FirstBadCut(lens, channels, total, i - 1);
    }
  }

  lemma {:induction false} SumGrows(lens: seq<nat>, i: nat)
    requires i <= |lens|
    ensures Sum(lens[..i]) <= Sum(lens)
    decreases |lens|
  {
    if i < |lens| {
      SumGrows(lens[..|lens| - 1], i);
      assert lens[..|lens| - 1][..i] == lens[..i];
    } else {
      assert lens[..i] == lens;
    }
  }

  /** The piece before a bad cut that follows a good one begins between two frames and
      ends inside frame f, which the whole stream completes. */
  lemma SplitFrame(start: nat, len: nat, total: nat, channels: int) returns (f: nat, rest: nat)
    requires channels > 0 && start + len <= total
    requires GoodCut(start, total, channels) && !GoodCut(start + len, total, channels)
    ensures 0 < rest < channels && rest <= len && (len - rest) % channels == 0
    ensures f < total / channels && start + (len - rest) == f * channels
  {
    var end := start + len;
    DivMonotone(start, end, channels);
    DivMonotone(end, total, channels);
    DivMod(start, channels);
    DivMod(end, channels);
    DivLess(end, channels, 0);
    f, rest := end / channels, end % channels;
    var g := start / channels;
    Distribute(f, g, channels);
    if f < g { MulLe(f + 1, g, channels); MulSucc(f, channels); }
    MulLe(0, f - g, channels);
    DivUnique(len - rest, channels, f - g, 0);
  }

  /** A mark in the partial frame that ends a piece is lost. */
  lemma MarkLost(p: Plan, len: nat, at: nat)
    requires p.Valid() && !(p.Filtered() && p.inChannels == p.mid)
    requires at < len < at + p.inChannels && at % p.inChannels == 0
    ensures Silent(Mix(KEEP, p, MarkAt(len, at)))
  {
    hide Mix;
    var s := MarkAt(len, at);
    var head, tail := s[..at], s[at..];
    assert s == head + tail && Silent(head);
    MixConcat(KEEP, p, head, tail);
    MixSilent(p, head);
    MixShort(KEEP, p, tail);
  }

  lemma MarkedShape(rate: int, channels: int, lens: seq<nat>, j: nat, at: nat, i: nat)
    requires rate > 0 && channels > 0 && j < |lens| && at < lens[j] && i < |lens|
    ensures var piece := Marked(rate, channels, lens, j, at)[i];
      && piece.Valid() && piece.sampleRate == rate && piece.channels == channels && piece.NumSamples() == lens[i]
      && piece.Float() == if i == j then MarkAt(lens[i], at) else Zeros(lens[i])
  {
  }

  lemma MarkedContributions(cfg: Config, rate: int, channels: int, lens: seq<nat>, j: nat, at: nat)
    requires cfg.Valid() && rate > 0 && channels > 0 && !KeepsPartial(cfg, rate, channels)
    requires j < |lens| && at < lens[j] < at + channels && at % channels == 0
    ensures var pieces := Marked(rate, channels, lens, j, at);
      && Uniform(pieces, rate, channels) && HasLengths(pieces, lens)
      && forall i :: 0 <= i < |pieces| ==> Silent(Mix(KEEP, MakePlan(cfg, rate, channels), pieces[i].Float()))
  {
    var p := MakePlan(cfg, rate, channels);
    assert !(p.Filtered() && p.inChannels == p.mid);
    hide Mix, MakePlan, Marked, Zeros, Silent, KeepsPartial;
    var pieces := Marked(rate, channels, lens, j, at);
    forall i | 0 <= i < |pieces|
      ensures pieces[i].Valid() && pieces[i].sampleRate == rate && pieces[i].channels == channels
      ensures pieces[i].NumSamples() == lens[i]
      ensures Silent(Mix(KEEP, p, pieces[i].Float()))
    {
      MarkedShape(rate, channels, lens, j, at, i);
      if i == j {
        MarkLost(p, lens[j], at);
      } else {
        assert Silent(Zeros(lens[i])) by { ZerosSilent(lens[i]); }
        MixSilent(p, Zeros(lens[i]));
      }
    }
  }

  lemma ZerosSilent(n: nat)
    ensures Silent(Zeros(n))
  {
  }

  /** Where a mark is lost: the first sample of a whole frame f that piece j begins and
      does not end. */
  lemma MarkPlace(lens: seq<nat>, channels: int, i: nat) returns (j: nat, at: nat, f: nat)
    requires channels > 0 && i < |lens| && !GoodCut(Sum(lens[..i]), Sum(lens), channels)
    ensures j < |lens| && at < lens[j] < at + channels && at % channels == 0
    ensures f < Sum(lens) / channels && Sum(lens[..j]) + at == f * channels
  {
    hide GoodCut;
    var b := FirstBadCut(lens, channels, Sum(lens), i);
    j := b - 1;
    assert lens[..b][..j] == lens[..j];
    SumGrows(lens, b);
    var rest;
    f, rest := SplitFrame(Sum(lens[..j]), lens[j], Sum(lens), channels);
    at := lens[j] - rest;
  }

  lemma MarkShows(cfg: Config, rate: int, channels: int, lens: seq<nat>, j: nat, at: nat, f: nat)
    requires cfg.Valid() && rate > 0 && channels > 0 && !KeepsPartial(cfg, rate, channels)
    requires j < |lens| && at < lens[j] < at + channels && at % channels == 0
    requires f < Sum(lens) / channels && Sum(lens[..j]) + at == f * channels
    ensures var pieces := Marked(rate, channels, lens, j, at);
      Uniform(pieces, rate, channels) && HasLengths(pieces, lens) && !DoesNotShow(KEEP, cfg, pieces, rate, channels)
  {
    hide RunAll, Joined, Audio, Mix, MakePlan, IsSpike, Signal, Marked, Sum, Silent, Uniform, HasLengths, KeepsPartial,
         WellCut, SoundsMarked;
    var pieces := Marked(rate, channels, lens, j, at);
    MarkedContributions(cfg, rate, channels, lens, j, at);
    MarkedSounds(rate, channels, lens, j, at);
    MarkedSignal(pieces, lens, j, at, |lens|);
    SignalLength(pieces, lens, j);
    SignalLength(pieces, lens, |lens|);
    assert pieces[..|lens|] == pieces && lens[..|lens|] == lens;
    var one := AtOnce(pieces, rate, channels);
    AtOnceCut(cfg, pieces, rate, channels);
    var a := SilentRun(cfg, pieces, rate, channels);
    var o, k := SpikeRun(cfg, one, rate, channels, f);
    MarkIsHeard(cfg, a, o, k);
  }

  /** Necessary: for any other lengths there are samples and an arithmetic for which the
      division shows. */
  lemma BadLengthsShow(cfg: Config, rate: int, channels: int, lens: seq<nat>) returns (pieces: seq<PCM>)
    requires cfg.Valid() && rate > 0 && channels > 0 && !GoodLengths(cfg, rate, channels, lens)
    ensures Uniform(pieces, rate, channels) && HasLengths(pieces, lens)
    ensures !DoesNotShow(KEEP, cfg, pieces, rate, channels)
  {
    hide GoodCut, Uniform, HasLengths, DoesNotShow, Marked, Sum;
    var i :| 0 <= i < |lens| && !GoodCut(Sum(lens[..i]), Sum(lens), channels);
    var j, at, f := MarkPlace(lens, channels, i);
    pieces := Marked(rate, channels, lens, j, at);
    MarkShows(cfg, rate, channels, lens, j, at, f);
  }

  lemma SignalOfOne(p: PCM)
    ensures Signal([p]) == p.Float()
  {
    assert [p][..0] == [];
  }

  /** Split invariance, exactly: a stream may be divided into pieces of the given lengths
      without any difference, whatever the samples and the arithmetic, if and only if
      every piece begins between two frames or in the partial frame that ends the stream,
      or partial frames are kept. */
  lemma SplitInvarianceIff(cfg: Config, rate: int, channels: int, lens: seq<nat>)
    requires cfg.Valid() && rate > 0 && channels > 0
    ensures (forall ops, pieces :: Uniform(pieces, rate, channels) && HasLengths(pieces, lens) ==>
               DoesNotShow(ops, cfg, pieces, rate, channels))
        <==> GoodLengths(cfg, rate, channels, lens)
  {
    hide DoesNotShow, Uniform, HasLengths;
    if GoodLengths(cfg, rate, channels, lens) {
      forall ops, pieces | Uniform(pieces, rate, channels) && HasLengths(pieces, lens)
        ensures DoesNotShow(ops, cfg, pieces, rate, channels)
      {
        GoodLengthsSuffice(ops, cfg, pieces, rate, channels, lens);
      }
    } else {
      var pieces := BadLengthsShow(cfg, rate, channels, lens);
    }
  }
}
