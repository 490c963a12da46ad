/** The streaming resampler of audio/resample.go: an exact rational cursor over a
    buffer that drops the frames it no longer needs. Its methods are proved to
    compute ResampleSpec's whole-stream functions. */
module Resample {
  import opened Bits
  import opened Float32
  import opened Pcm
  import opened Arith
  import opened ResampleSpec
  import opened ResampleLaws

  lemma SmallMod(m: nat)
    requires m > 0
    ensures forall c :: 0 <= c < m ==> c % m == c
  {
    forall c | 0 <= c < m ensures c % m == c { DivUnique(c, m, 0, c); }
  }

  /** Frame f of a buffer that holds the stream from frame skip on. */
  lemma FrameInBuf(buf: seq<F32>, fed: seq<F32>, more: seq<F32>, f: nat, frames: nat, skip: nat, mid: nat)
      returns (next: seq<F32>)
    requires f < frames && |more| == frames * mid && more <= buf
    requires forall j :: 0 <= j < |more| ==> At(fed, skip * mid + j) == more[j]
    ensures 0 <= f * mid <= (f + 1) * mid == f * mid + mid <= |buf|
    ensures next == buf[f * mid..(f + 1) * mid]
    ensures forall c :: 0 <= c < mid ==> next[c] == At(fed, (skip + f) * mid + c)
  {
    hide At;
    MulLe(f + 1, frames, mid);
    MulSucc(f, mid);
    MulLe(0, f, mid);
    Distribute(skip, f, mid);
    var from := f * mid;
    next := buf[from..from + mid];
    forall c | 0 <= c < mid
      ensures next[c] == At(fed, (skip + f) * mid + c)
    {
      assert next[c] == more[from + c];
      assert (skip + f) * mid + c == skip * mid + (from + c);
    }
  }

  /** gcd, as the loop of the source. */
  method EuclidLoop(x: nat, y: nat) returns (g: nat)
    requires x > 0 || y > 0
    ensures g == Gcd(x, y) && g > 0
  {
    var a: nat, b: nat := x, y;
    while b != 0
      invariant (a > 0 || b > 0) && Gcd(a, b) == Gcd(x, y)
      decreases b
    {
      a, b := b, a % b;
    }
    g := a;
  }

  /** A stream between lead frames of priming silence and pad samples of flush silence. */
  ghost function Padded(m: seq<F32>, lead: nat, pad: nat): (r: seq<F32>)
    ensures |r| == lead + |m| + pad
    ensures forall i :: 0 <= i < |r| ==> r[i] == At(m, i - lead)
  {
    Zeros(lead) + m + Zeros(pad)
  }

  lemma PaddedAppend(m: seq<F32>, more: seq<F32>, lead: nat)
    ensures Padded(m, lead, 0) + more == Padded(m + more, lead, 0)
  {
    var z := Zeros(0);
    assert z == [];
  }

  lemma PaddedFlush(m: seq<F32>, lead: nat, pad: nat)
    ensures Padded(m, lead, 0) + Zeros(pad) == Padded(m, lead, pad)
  {
    var z := Zeros(0);
    assert z == [];
  }

  class StreamResampler {
    const ops: FloatOps
    const cfg: Config

    var inRate: int
    var inChannels: int
    var configured: bool

    /** filter != nil, and its halfTaps. */
    var filtering: bool
    var halfTaps: nat
    var buf: seq<F32>
    var mid: nat
    var posInt: int
    var posFrac: nat
    var stepNum: nat
    var stepDen: nat
    var pending: seq<F32>
    var emitted: nat

    /** The plan, the stream so far, the frames compacted away and the frames produced. */
    ghost var plan: Plan
    ghost var fed: seq<F32>
    ghost var base: nat
    ghost var made: nat
    /** The samples compacted out of buf and those handed out of pending. */
    ghost var gone: seq<F32>
    ghost var handed: seq<F32>

    ghost function View(): Stream
      reads this
    {
      if configured then Streaming(inRate, inChannels, fed) else Fresh
    }

    /** The locked-in parameters are the plan's. */
    ghost predicate Locked()
      reads this
    {
      && configured && plan.Valid() && plan.cfg == cfg && plan.inRate == inRate && plan.inChannels == inChannels
      && mid == plan.mid && filtering == plan.Filtered()
      && stepNum == plan.num && stepDen == plan.den && halfTaps == plan.halfTaps
    }

    /** buf, with pad samples of flush silence, is the stream from frame base on,
        and the cursor is exactly halfTaps + made * stepNum / stepDen from its start. */
    ghost predicate CursorExact(pad: nat)
      requires Locked()
      reads this
    {
      && |gone| == base * mid
      && gone + buf == Padded(fed, halfTaps * mid, pad)
      && base + posInt == halfTaps + Whole(plan, made)
      && posFrac == Part(plan, made)
      && posInt >= halfTaps - 1
    }

    /** pending is the produced output that has not been handed out. */
    ghost predicate PendingExact()
      requires Locked()
      reads this
    {
      handed + pending == Output(ops, plan, fed, made)
    }

    ghost predicate Valid()
      reads this
    {
      && cfg.Valid()
      && (!configured ==> emitted == 0)
      && (configured ==>
          && Locked() && plan == MakePlan(cfg, inRate, inChannels)
          && (if filtering then CursorExact(0) else buf == [] && |fed| == made * mid)
          && PendingExact()
          && made == ReadyCount(plan, fed)
          && |handed| == Samples(emitted, cfg.channels)
          && emitted == Emitted(plan, fed))
    }

    constructor (ops: FloatOps, cfg: Config)
      requires cfg.Valid()
      ensures Valid() && View() == Fresh && this.ops == ops && this.cfg == cfg
    {
      this.ops, this.cfg := ops, cfg;
      configured, filtering, emitted := false, false, 0;
      inRate, inChannels, mid, halfTaps, posInt, posFrac, stepNum, stepDen := 0, 0, 0, 0, 0, 0, 0, 0;
      buf, pending := [], [];
    }

    /** Reset. */
    method Reset()
      requires cfg.Valid()
      modifies this
      ensures Valid() && View() == Fresh
    {
      configured, filtering := false, false;
      buf, pending := [], [];
      posInt, posFrac := 0, 0;
      emitted := 0;
    }

    /** configure: lock the input shape and prime the filter with silence. */
    method Configure(rate: int, channels: int)
      requires cfg.Valid() && rate > 0 && channels > 0 && emitted == 0
      modifies this
      ensures Valid() && View() == Streaming(rate, channels, [])
    {
      hide Padded, Output, MakePlan, Whole, Part;
      buf, pending := [], [];
      posInt, posFrac := 0, 0;
      LockShape(rate, channels);
      Prime();
      NothingReady(plan);
      MulZero(mid);
    }

    /** The parameters configure derives from the input shape. */
    method LockShape(rate: int, channels: int)
      requires cfg.Valid() && rate > 0 && channels > 0
      modifies this`inRate, this`inChannels, this`mid, this`stepNum, this`stepDen, this`halfTaps
      modifies this`filtering, this`configured, this`plan
      ensures Locked() && plan == MakePlan(cfg, rate, channels) && inRate == rate && inChannels == channels
    {
      inRate, inChannels := rate, channels;
      mid := if channels < cfg.channels then channels else cfg.channels;
      var g := EuclidLoop(rate, cfg.sampleRate);
      plan := MakePlan(cfg, rate, channels);
      stepNum, stepDen := rate / g, cfg.sampleRate / g;
      halfTaps := HalfTaps(rate, cfg.sampleRate);
      filtering := rate != cfg.sampleRate;
      configured := true;
    }

    /** The silence before the first frame, and the cursor at it. */
    method Prime()
      requires Locked() && buf == [] && pending == [] && posFrac == 0
      modifies this`buf, this`posInt, this`fed, this`base, this`made, this`gone, this`handed
      ensures fed == [] && made == 0 && handed == []
      ensures if filtering then CursorExact(0) else buf == []
      ensures PendingExact()
    {
      fed, base, made, gone, handed := [], 0, 0, [], [];
      if filtering {
        MulLe(0, halfTaps, mid);
        buf := buf + Zeros(halfTaps * mid);
        posInt := halfTaps;
        assert gone + buf == Padded(fed, halfTaps * mid, 0);
        CursorStart(plan);
      }
    }

    /** feed: convert to singles at mid channels and append. */
    method Feed(pcm: PCM)
      requires Locked() && pcm.Valid() && pcm.channels == inChannels
      modifies this`buf
      ensures filtering || inChannels != mid ==> buf == old(buf) + Contribution(ops, plan, pcm)
      ensures !filtering && inChannels == mid ==> buf == old(buf) + pcm.Float()
    {
      var src := ToFloat32(pcm);
      if pcm.channels == mid {
        buf := buf + src.f32;
      } else {
        var mixed := DownmixLoop(src.f32, pcm.channels);
        buf := buf + mixed;
      }
    }

    /** The averaging loops of feed. */
    method DownmixLoop(src: seq<F32>, channels: nat) returns (out: seq<F32>)
      requires 0 < mid < channels
      ensures out == Downmix(ops, src, channels, mid)
    {
      out := [];
      var frames := |src| / channels;
      DivMod(|src|, channels);
      DivLess(|src|, channels, 0);
      for f := 0 to frames
        invariant 0 <= f * mid <= frames * mid && |out| == f * mid
        invariant forall j :: 0 <= j < |out| ==> out[j] == Downmix(ops, src, channels, mid)[j]
      {
        MulSucc(f, mid);
        MulLe(f + 1, frames, mid);
        MulLe(f + 1, frames, channels);
        MulSucc(f, channels);
        MulLe(0, f, channels);
        for c := 0 to mid
          invariant |out| == f * mid + c
          invariant forall j :: 0 <= j < |out| ==> out[j] == Downmix(ops, src, channels, mid)[j]
        {
          var sum, n, s := ZERO, 0, c;
          while s < channels
            invariant FoldChannels(ops, src, f * channels, channels, mid, s, sum, n)
                   == FoldChannels(ops, src, f * channels, channels, mid, c, ZERO, 0)
          {
            sum := (ops.add)(sum, src[f * channels + s]);
            n := n + 1;
            s := s + mid;
          }
          DivUnique(f * mid + c, mid, f, c);
          out := out + [(ops.div)(sum, (ops.ofCount)(n))];
        }
      }
    }

    /** The weights for the current fraction and their sum. */
    method Weights() returns (weights: seq<F32>, wsum: F32)
      requires Locked()
      ensures |weights| == 2 * halfTaps
      ensures forall i :: 0 <= i < 2 * halfTaps ==> weights[i] == Weight(ops, plan, posFrac, i)
      ensures wsum == Norm(ops, plan, posFrac)
    {
      var w := new F32[2 * halfTaps];
      wsum := ZERO;
      var start := posInt - halfTaps + 1;
      for i := 0 to 2 * halfTaps
        invariant wsum == WeightSum(ops, plan, posFrac, i)
        invariant forall j :: 0 <= j < i ==> w[j] == Weight(ops, plan, posFrac, j)
      {
        w[i] := (ops.kernel)(inRate, cfg.sampleRate, posInt - (start + i), posFrac);
        wsum := (ops.add)(wsum, w[i]);
      }
      weights := w[..];
      if (ops.isZero)(wsum) {
        wsum := ONE;
      }
    }

    /** Every tap of the current output frame lies inside buf and is the stream
        sample that the whole-stream form reads. */
    lemma TapInRange(pad: nat, i: nat, c: nat)
      requires Locked() && filtering && CursorExact(pad)
      requires i < 2 * halfTaps && c < mid && posInt + halfTaps < |buf| / mid
      ensures 0 <= (posInt - halfTaps + 1 + i) * mid + c < |buf|
      ensures buf[(posInt - halfTaps + 1 + i) * mid + c]
           == At(fed, (Whole(plan, made) - halfTaps + (i + 1)) * mid + c)
    {
      var j := posInt - halfTaps + 1 + i;
      DivMod(|buf|, mid);
      MulLe(j + 1, |buf| / mid, mid);
      MulSucc(j, mid);
      MulLe(0, j, mid);
      Distribute(base, j, mid);
      Distribute(base + j, halfTaps, mid);
      assert buf[j * mid + c] == (gone + buf)[|gone| + (j * mid + c)];
    }

    /** One channel of one output frame. */
    method TapLoop(weights: seq<F32>, c: nat, ghost pad: nat) returns (acc: F32)
      requires Locked() && filtering && CursorExact(pad) && c < mid && posInt + halfTaps < |buf| / mid
      requires |weights| == 2 * halfTaps
      requires forall i :: 0 <= i < 2 * halfTaps ==> weights[i] == Weight(ops, plan, posFrac, i)
      ensures acc == TapSum(ops, plan, fed, Whole(plan, made), posFrac, c, 2 * halfTaps)
    {
      acc := ZERO;
      var start := posInt - halfTaps + 1;
      for i := 0 to 2 * halfTaps
        invariant acc == TapSum(ops, plan, fed, Whole(plan, made), posFrac, c, i)
      {
        TapInRange(pad, i, c);
        acc := (ops.add)(acc, (ops.mul)(buf[(start + i) * mid + c], weights[i]));
      }
    }

    /** spreadChannels: fill the channels beyond mid of the frame at offset from. */
    method SpreadChannels(from: nat)
      requires Locked() && |pending| == from + cfg.channels
      modifies this`pending
      ensures |pending| == |old(pending)| && pending[..from] == old(pending)[..from]
      ensures forall c :: 0 <= c < cfg.channels ==> pending[from + c] == old(pending)[from + c % mid]
    {
      ghost var was := pending;
      SmallMod(mid);
      for c := mid to cfg.channels
        invariant |pending| == |was| && pending[..from] == was[..from]
        invariant forall k :: 0 <= k < c ==> pending[from + k] == was[from + k % mid]
      {
        assert pending[from + c % mid] == was[from + c % mid] by { assert (c % mid) % mid == c % mid; }
        pending := pending[from + c := pending[from + c % mid]];
      }
    }

    /** The frame at the end of pending, once spread, is output frame made. */
    lemma FrameDone(from: nat)
      requires Locked() && |pending| == from + cfg.channels
      requires forall c :: 0 <= c < cfg.channels ==> pending[from + c] == OutSample(ops, plan, fed, made, c % mid)
      ensures pending[from..] == OutFrame(ops, plan, fed, made)
    {
    }

    /** Appending the next frame keeps pending exact. */
    lemma PendingExtends(before: seq<F32>)
      requires Locked() && handed + before == Output(ops, plan, fed, made)
      requires pending == before + OutFrame(ops, plan, fed, made)
      ensures handed + pending == Output(ops, plan, fed, made + 1)
    {
      hide OutFrame;
      var f := OutFrame(ops, plan, fed, made);
      assert handed + (before + f) == (handed + before) + f;
    }

    /** The loop guard of produce in terms of the whole stream. */
    lemma GuardMeans(pad: nat, available: int)
      requires Locked() && filtering && CursorExact(pad)
      requires available == (halfTaps * mid + |fed| + pad) / mid
      ensures posInt + halfTaps < |buf| / mid <==> made < plan.Outputs(available - 2 * halfTaps)
      ensures |buf| / mid == available - base
    {
      DivAddMultiple(-(base as int), halfTaps * mid + |fed| + pad, mid);
      assert |buf| == -(base as int) * mid + (halfTaps * mid + |fed| + pad);
      OutputsExact(plan, available - 2 * halfTaps, made);
    }

    /** produce, filter branch: run over everything readable, then compact. */
    method ProduceFiltered(ghost pad: nat, ghost available: int)
      requires Locked() && filtering && CursorExact(pad) && PendingExact() && plan.Covers()
      requires available == (halfTaps * mid + |fed| + pad) / mid
      requires made <= plan.Outputs(available - 2 * halfTaps)
      modifies this`buf, this`pending, this`posInt, this`posFrac, this`base, this`made, this`gone
      ensures CursorExact(pad) && PendingExact() && posInt == halfTaps - 1
      ensures made == plan.Outputs(available - 2 * halfTaps)
    {
      var frames := |buf| / mid;
      FilterLoop(frames, pad, available);
      // Compact: frames behind the first tap are never read again.
      var keep := posInt - halfTaps + 1;
      if keep > 0 {
        KeepInRange(pad, available);
        Compact(keep, pad);
      }
    }

    /** The loop of produce. */
    method FilterLoop(frames: int, ghost pad: nat, ghost available: int)
      requires Locked() && filtering && CursorExact(pad) && PendingExact()
      requires available == (halfTaps * mid + |fed| + pad) / mid && frames == |buf| / mid
      requires made <= plan.Outputs(available - 2 * halfTaps)
      modifies this`pending, this`posInt, this`posFrac, this`made
      ensures CursorExact(pad) && PendingExact()
      ensures made == plan.Outputs(available - 2 * halfTaps)
    {
      ghost var target := plan.Outputs(available - 2 * halfTaps);
      GuardMeans(pad, available);
      while posInt + halfTaps < frames
        invariant CursorExact(pad) && PendingExact() && made <= target
        invariant posInt + halfTaps < frames <==> made < target
        decreases target - made
      {
        ProduceFrame(pad);
        GuardMeans(pad, available);
      }
    }

    /** Compaction never slices past the end of buf. */
    lemma KeepInRange(pad: nat, available: int)
      requires Locked() && filtering && CursorExact(pad)
      requires available == (halfTaps * mid + |fed| + pad) / mid
      requires plan.Covers() && made <= plan.Outputs(available - 2 * halfTaps)
      ensures posInt - halfTaps + 1 <= |buf| / mid
    {
      GuardMeans(pad, available);
      if made == 0 {
        CursorStart(plan);
        DivAddMultiple(halfTaps, |fed| + pad, mid);
        DivLess(|fed| + pad, mid, 0);
      } else {
        CursorStep(plan, made - 1);
        OutputsExact(plan, available - 2 * halfTaps, made - 1);
      }
    }

    /** One iteration of produce: a frame and an exact cursor advance. */
    method ProduceFrame(ghost pad: nat)
      requires Locked() && filtering && CursorExact(pad) && PendingExact() && posInt + halfTaps < |buf| / mid
      modifies this`pending, this`posInt, this`posFrac, this`made
      ensures CursorExact(pad) && PendingExact() && made == old(made) + 1
    {
      hide Output, OutFrame, Padded;
      ghost var before := pending;
      FilterFrame(pad);
      PendingExtends(before);
      CursorStep(plan, made);
      made := made + 1;
      posFrac := posFrac + stepNum;
      posInt := posInt + posFrac / stepDen;
      posFrac := posFrac % stepDen;
    }

    /** One iteration of produce up to the cursor advance. */
    method FilterFrame(ghost pad: nat)
      requires Locked() && filtering && CursorExact(pad) && posInt + halfTaps < |buf| / mid
      modifies this`pending
      ensures pending == old(pending) + OutFrame(ops, plan, fed, made)
    {
      var weights, wsum := Weights();
      var from := |pending|;
      ghost var was := pending;
      pending := pending + Zeros(cfg.channels);
      for c := 0 to mid
        invariant |pending| == from + cfg.channels && pending[..from] == was
        invariant forall k :: 0 <= k < c ==> pending[from + k] == OutSample(ops, plan, fed, made, k)
      {
        var acc := TapLoop(weights, c, pad);
        pending := pending[from + c := (ops.div)(acc, wsum)];
      }
      SpreadChannels(from);
      FrameDone(from);
      assert pending == pending[..from] + pending[from..];
    }

    /** Move the base of buf up to the first tap of the next output. */
    method Compact(keep: nat, ghost pad: nat)
      requires Locked() && filtering && CursorExact(pad)
      requires keep == posInt - halfTaps + 1 && keep <= |buf| / mid
      modifies this`buf, this`posInt, this`base, this`gone
      ensures CursorExact(pad) && posInt == halfTaps - 1
    {
      DivMod(|buf|, mid);
      MulLe(keep, |buf| / mid, mid);
      MulLe(0, keep, mid);
      Distribute(base, keep, mid);
      gone := gone + buf[..keep * mid];
      assert gone + buf[keep * mid..] == old(gone) + old(buf);
      buf := buf[keep * mid..];
      posInt := posInt - keep;
      base := base + keep;
    }

    /** produceDirect: rates match, frames pass through with a channel change. */
    method ProduceDirect()
      requires Locked() && !filtering && PendingExact() && |fed| == made * mid
      modifies this`buf, this`pending, this`made, this`fed
      ensures fed == old(fed) + WholePrefix(old(buf), mid) && |fed| == made * mid && buf == [] && PendingExact()
    {
      WholeFrames(buf, mid);
      var frames := |buf| / mid;
      ghost var more := WholePrefix(buf, mid);
      DirectStable(more);
      fed := fed + more;
      PassFrames(frames, more);
      buf := [];
    }

    /** The loop of produceDirect. */
    method PassFrames(frames: nat, ghost more: seq<F32>)
      requires Locked() && !filtering && PendingExact()
      requires |more| == frames * mid && more <= buf && |fed| == (made + frames) * mid
      requires forall j :: 0 <= j < |more| ==> At(fed, made * mid + j) == more[j]
      modifies this`pending, this`made
      ensures made == old(made) + frames && PendingExact()
    {
      ghost var skip := made;
      for f := 0 to frames
        invariant made == skip + f && PendingExact()
      {
        PassFrame(f, frames, skip, more);
      }
    }

    lemma DirectStable(more: seq<F32>)
      requires Locked() && !filtering && |fed| == made * mid
      ensures Output(ops, plan, fed, made) == Output(ops, plan, fed + more, made)
      ensures forall k: nat :: |more| == k * mid ==> |fed + more| == (made + k) * mid
      ensures forall j :: 0 <= j < |more| ==> At(fed + more, made * mid + j) == more[j]
    {
      DivUnique(|fed|, mid, made, 0);
      OutputStable(ops, plan, fed, more, made);
      forall k: nat | |more| == k * mid ensures |fed + more| == (made + k) * mid {
        Distribute(made, k, mid);
      }
    }

    /** One frame of produceDirect. */
    method PassFrame(f: nat, ghost frames: nat, ghost skip: nat, ghost more: seq<F32>)
      requires Locked() && !filtering && PendingExact() && made == skip + f && f < frames
      requires |more| == frames * mid && more <= buf
      requires forall j :: 0 <= j < |more| ==> At(fed, skip * mid + j) == more[j]
      modifies this`pending, this`made
      ensures made == old(made) + 1 && PendingExact()
    {
      hide Output, OutFrame, At, Zeros;
      ghost var before := pending;
      var from := |pending|;
      ghost var next := FrameInBuf(buf, fed, more, f, frames, skip, mid);
      var frame := buf[f * mid..(f + 1) * mid] + Zeros(cfg.channels - mid);
      assert forall c :: 0 <= c < mid ==> frame[c] == next[c];
      pending := pending + frame;
      Spread(from, next);
      assert pending == before + OutFrame(ops, plan, fed, made);
      PendingExtends(before);
      made := made + 1;
    }

    /** Channel c of an output frame that is passed through. */
    lemma SampleIsAt(c: nat)
      requires Locked() && !filtering
      ensures OutSample(ops, plan, fed, made, c) == At(fed, made * mid + c)
    {
    }

    /** The frame at the end of pending becomes output frame made. */
    method Spread(from: nat, ghost next: seq<F32>)
      requires Locked() && !filtering && |pending| == from + cfg.channels && |next| == mid
      requires forall c :: 0 <= c < mid ==> pending[from + c] == next[c] == At(fed, made * mid + c)
      modifies this`pending
      ensures pending == old(pending)[..from] + OutFrame(ops, plan, fed, made)
    {
      hide OutSample, At, OutFrame;
      ghost var was := pending;
      SpreadChannels(from);
      forall c | 0 <= c < cfg.channels ensures pending[from + c] == OutSample(ops, plan, fed, made, c % mid) {
        assert was[from + c % mid] == next[c % mid];
        SampleIsAt(c % mid);
      }
      FrameDone(from);
      assert pending == pending[..from] + pending[from..];
    }

    /** One output buffer of collect: n frames of pending after the first taken. */
    method TakeBuffer(taken: nat, n: nat, ghost available: nat, ghost o: seq<F32>, ghost first: nat) returns (pcm: PCM)
      requires cfg.Valid() && emitted == first + taken
      requires taken + n <= available && |pending| == Samples(available, cfg.channels)
      requires o == handed + pending && |handed| == Samples(first, cfg.channels)
      ensures pcm == Buffer(cfg, o, first + taken, n)
    {
      hide Samples, Narrow;
      var per := cfg.channels;
      SamplesAdd(taken, n, per);
      SamplesAdd(taken + n, available - (taken + n), per);
      SamplesAdd(first, taken, per);
      SamplesAdd(first, taken + n, per);
      SamplesIs(taken, per);
      SamplesIs(taken + n, per);
      var samples := pending[taken * per..(taken + n) * per];
      assert samples == Slice(o, Samples(first + taken, per), Samples(first + taken + n, per));
      pcm := PCM(FormatF32, cfg.sampleRate, per, 0, [], samples);
      if cfg.format == FormatF32 {
        pcm := ToFloat32(pcm);
      } else {
        pcm := ToInt16(pcm);
      }
      pcm := pcm.(pts := Quo(Wrap64(emitted * 1_000_000_000), cfg.sampleRate));
    }

    /** The cutting loop of collect. */
    method CutLoop(available: nat, final: bool, ghost o: seq<F32>) returns (out: seq<PCM>, taken: nat)
      requires cfg.Valid() && o == handed + pending
      requires |handed| == Samples(emitted, cfg.channels) && |pending| == Samples(available, cfg.channels)
      modifies this`emitted
      ensures taken == Taken(cfg.frameSize, available, final) && emitted == old(emitted) + taken
      ensures out == Render(cfg, o, Cut(cfg.frameSize, old(emitted), old(emitted) + available, final))
    {
      hide Cutting, Render, Buffer, Samples;
      ghost var first, done := emitted, [];
      var size := if cfg.frameSize == 0 then available else cfg.frameSize;
      out, taken := [], 0;
      CuttingStart(cfg.frameSize, first, available, final);
      while taken < available
        invariant taken <= available && emitted == first + taken
        invariant cfg.frameSize == 0 ==> taken == 0 || taken == available
        invariant Cutting(cfg.frameSize, first, available, final, taken, done)
        invariant out == Render(cfg, o, done)
      {
        var n := if size < available - taken then size else available - taken;
        if n < size && !final {
          break;
        }
        var pcm := TakeBuffer(taken, n, available, o, first);
        CuttingStep(cfg.frameSize, first, available, final, taken, done, n);
        RenderAppend(cfg, o, done, Span(first + taken, n));
        done := done + [Span(first + taken, n)];
        out := out + [pcm];
        emitted := emitted + n;
        taken := taken + n;
      }
      CuttingDone(cfg.frameSize, first, available, final, taken, done);
    }

    /** collect: cut pending into output buffers. */
    method Collect(final: bool) returns (out: seq<PCM>)
      requires Locked() && PendingExact() && |handed| == Samples(emitted, cfg.channels) && emitted <= made
      modifies this`pending, this`emitted, this`handed
      ensures out == Render(cfg, Output(ops, plan, fed, made), Cut(cfg.frameSize, old(emitted), made, final))
      ensures emitted == old(emitted) + Taken(cfg.frameSize, made - old(emitted), final)
      ensures PendingExact() && |handed| == Samples(emitted, cfg.channels)
    {
      hide Output, Samples, Render, Cut, Taken;
      OutputLength(ops, plan, fed, made);
      SamplesAdd(emitted, made - emitted, cfg.channels);
      SamplesIs(made - emitted, cfg.channels);
      DivUnique(|pending|, cfg.channels, made - emitted, 0);
      var available := |pending| / cfg.channels;
      if available == 0 {
        NothingToCut(cfg, handed + pending, emitted, final);
        return [];
      }
      var taken: nat;
      out, taken := CutLoop(available, final, handed + pending);
      DropTaken(taken, available);
    }

    /** The trim at the end of collect. */
    method DropTaken(taken: nat, ghost available: nat)
      requires cfg.Valid() && taken <= available && |pending| == Samples(available, cfg.channels)
      requires emitted >= taken && |handed| == Samples(emitted - taken, cfg.channels)
      modifies this`pending, this`handed
      ensures handed + pending == old(handed) + old(pending) && |handed| == Samples(emitted, cfg.channels)
    {
      SamplesAdd(taken, available - taken, cfg.channels);
      SamplesAdd(emitted - taken, taken, cfg.channels);
      SamplesIs(taken, cfg.channels);
      handed := handed + pending[..taken * cfg.channels];
      pending := pending[taken * cfg.channels..];
      assert handed + pending == old(handed) + old(pending);
    }

    /** Appending to the stream keeps the cursor and the pending output exact. */
    lemma FeedKeeps(more: seq<F32>)
      requires Locked() && filtering && CursorExact(0) && PendingExact() && made <= ReadyCount(plan, fed)
      ensures gone + (buf + more) == Padded(fed + more, halfTaps * mid, 0)
      ensures handed + pending == Output(ops, plan, fed + more, made)
      ensures (halfTaps * mid + |fed + more| + 0) / mid - 2 * halfTaps == plan.Frames(fed + more) - halfTaps
      ensures made <= ReadyCount(plan, fed + more)
    {
      hide Padded, Output, Plan.Outputs, Whole, Part;
      assert gone + (buf + more) == (gone + buf) + more;
      PaddedAppend(fed, more, halfTaps * mid);
      OutputStable(ops, plan, fed, more, made);
      DivAddMultiple(halfTaps, |fed + more|, mid);
      ReadyGrows(plan, fed, more);
    }

    /** feed then produce, filter branch. */
    method PushFiltered(pcm: PCM)
      requires Locked() && filtering && plan.Covers() && CursorExact(0) && PendingExact()
      requires made <= ReadyCount(plan, fed) && pcm.Valid() && pcm.channels == inChannels
      modifies this`buf, this`pending, this`posInt, this`posFrac, this`base, this`made, this`gone, this`fed
      ensures fed == old(fed) + Contribution(ops, plan, pcm)
      ensures CursorExact(0) && PendingExact() && posInt == halfTaps - 1 && made == ReadyCount(plan, fed)
    {
      hide Contribution, Output, Padded, Whole, Part;
      ghost var more := Contribution(ops, plan, pcm);
      FeedKeeps(more);
      Feed(pcm);
      fed := fed + more;
      ProduceFiltered(0, (halfTaps * mid + |fed| + 0) / mid);
    }

    /** feed then produce, matching rates. */
    method PushDirect(pcm: PCM)
      requires Locked() && !filtering && PendingExact() && |fed| == made * mid && buf == []
      requires pcm.Valid() && pcm.channels == inChannels
      modifies this`buf, this`pending, this`made, this`fed
      ensures fed == old(fed) + Contribution(ops, plan, pcm)
      ensures |fed| == made * mid && buf == [] && PendingExact() && made == ReadyCount(plan, fed)
    {
      Feed(pcm);
      DownmixWhole(pcm);
      ProduceDirect();
      DivUnique(|fed|, mid, made, 0);
    }

    /** Cutting a contribution to whole frames leaves it alone. */
    lemma DownmixWhole(pcm: PCM)
      requires Locked() && !filtering && pcm.channels == inChannels
      requires buf == if inChannels != mid then Contribution(ops, plan, pcm) else pcm.Float()
      ensures WholePrefix(buf, mid) == Contribution(ops, plan, pcm)
    {
      if inChannels != mid {
        var k := |pcm.Float()| / inChannels;
        DivUnique(|buf|, mid, k, 0);
      }
    }

    /** Write. */
    method Write(pcm: PCM) returns (r: Result<seq<PCM>>)
      requires Valid()
      modifies this
      ensures Valid() && (View(), r) == WriteStep(ops, cfg, old(View()), pcm)
    {
      if pcm.IsEmpty() {
        return Ok([]);
      }
      var v := Validate(pcm.format, pcm.sampleRate, pcm.channels);
      if v.Err? {
        return Err(v.error);
      }
      var drained := [];
      if configured && (pcm.sampleRate != inRate || pcm.channels != inChannels) {
        // Another rate or channel count begins a new segment.
        drained := Flush();
      }
      var out := Push(pcm);
      r := Ok(drained + out);
    }

    /** Write from the point where any other shape has been drained. */
    method Push(pcm: PCM) returns (out: seq<PCM>)
      requires Valid() && pcm.Valid() && (configured ==> View().Matches(pcm))
      modifies this
      ensures Valid() && View() == Extend(ops, cfg, old(View()), pcm)
      ensures out == WriteOut(ops, cfg, old(View()), pcm)
    {
      hide Contribution, Output, Cut, Render, MakePlan, ReadyCount, Emitted, Taken, Samples;
      if !configured {
        Configure(pcm.sampleRate, pcm.channels);
      }
      ghost var before, more := fed, Contribution(ops, plan, pcm);
      ReadyGrows(plan, before, more);
      EmittedAgain(plan, before, more);
      Advance(pcm);
      out := Collect(false);
    }

    /** feed and produce. */
    method Advance(pcm: PCM)
      requires Valid() && configured && pcm.Valid() && View().Matches(pcm)
      modifies this`buf, this`pending, this`posInt, this`posFrac, this`base, this`made, this`gone, this`fed
      ensures fed == old(fed) + Contribution(ops, plan, pcm) && Locked() && PendingExact()
      ensures if filtering then CursorExact(0) else buf == [] && |fed| == made * mid
      ensures made == ReadyCount(plan, fed)
    {
      hide Contribution, Output, Padded, Whole, Part, Samples;
      assert plan.Covers();
      hide MakePlan;
      if filtering {
        PushFiltered(pcm);
      } else {
        PushDirect(pcm);
      }
    }

    /** Run the filter out. */
    method Drain()
      requires Valid() && configured
      modifies this`buf, this`pending, this`posInt, this`posFrac, this`base, this`made, this`gone, this`fed
      ensures fed == old(fed) && Locked() && PendingExact() && made == TotalCount(plan, fed)
    {
      hide Output, Padded, Whole, Part, Samples;
      ReadyWithinTotal(plan, fed);
      assert plan.Covers();
      if filtering {
        // The tail: halfTaps frames of zeros make every remaining output readable.
        PadKeeps();
        buf := buf + Zeros(halfTaps * mid);
        ProduceFiltered(halfTaps * mid, (halfTaps * mid + |fed| + halfTaps * mid) / mid);
      } else {
        ProduceDirect();
        DivUnique(|fed|, mid, made, 0);
      }
    }

    /** Flush. */
    method Flush() returns (out: seq<PCM>)
      requires Valid()
      modifies this
      ensures Valid() && View() == Fresh && out == FlushOut(ops, cfg, old(View()))
    {
      if !configured {
        return [];
      }
      hide Output, Cut, Render, MakePlan, ReadyCount, Emitted, TotalCount, Taken, Samples;
      ReadyWithinTotal(plan, fed);
      Drain();
      out := Collect(true);
      Reset();
    }

    lemma PadKeeps()
      requires Locked() && filtering && CursorExact(0)
      ensures halfTaps * mid >= 0
      ensures gone + (buf + Zeros(halfTaps * mid)) == Padded(fed, halfTaps * mid, halfTaps * mid)
      ensures (halfTaps * mid + |fed| + halfTaps * mid) / mid - 2 * halfTaps == plan.Frames(fed)
    {
      hide Padded;
      MulLe(0, halfTaps, mid);
      assert gone + (buf + Zeros(halfTaps * mid)) == (gone + buf) + Zeros(halfTaps * mid);
      PaddedFlush(fed, halfTaps * mid, halfTaps * mid);
      Distribute(halfTaps, halfTaps, mid);
      DivAddMultiple(2 * halfTaps, |fed|, mid);
    }
  }

  /** Writing any pieces to a fresh resampler and flushing it. */
  method RunStream(ops: FloatOps, cfg: Config, pieces: seq<PCM>) returns (out: seq<PCM>)
    requires cfg.Valid()
    ensures out == RunAll(ops, cfg, pieces)
  {
    hide WriteStep, FlushOut;
    var r := new StreamResampler(ops, cfg);
    out := [];
    for i := 0 to |pieces|
      invariant r.Valid() && fresh(r) && r.ops == ops && r.cfg == cfg
      invariant (r.View(), out) == RunFrom(ops, cfg, Fresh, pieces[..i])
    {
      assert pieces[..i + 1][..i] == pieces[..i];
      var w := r.Write(pieces[i]);
      if w.Ok? {
        out := out + w.value;
      } else {
        assert out + [] == out;
      }
    }
    assert pieces[..|pieces|] == pieces;
    var tail := r.Flush();
    out := out + tail;
  }

  /** Converting a buffer that already has the target shape agrees with streaming it
      exactly when it holds whole frames: the stream drops a partial one. */
  lemma OneMatching(ops: FloatOps, cfg: Config, input: PCM, same: PCM)
    requires cfg.Valid() && input.Valid() && input.sampleRate == cfg.sampleRate && input.channels == cfg.channels
    requires same.format == cfg.format && same.sampleRate == cfg.sampleRate && same.channels == cfg.channels
    requires if cfg.format.FormatF32? then same.f32 == input.Float()
             else same.s16 == if input.format.FormatS16? then input.s16 else Narrow(input.f32)
    ensures same.SameAudio(Joined(cfg, RunAll(ops, cfg, [input]))) <==> input.WholeFrames()
  {
    hide RunAll, JoinS16, JoinF32, Narrow, Widen;
    assert [input][..0] == [];
    assert Signal([input]) == input.Float();
    assert |Signal([])| == 0;
    DivUnique(0, cfg.channels, 0, 0);
    MatchingRun(ops, cfg, [input]);
    NarrowWiden(input.s16);
  }

  lemma JoinStep(bufs: seq<PCM>, i: nat)
    requires i < |bufs|
    ensures JoinS16(bufs[..i + 1]) == JoinS16(bufs[..i]) + bufs[i].s16
    ensures JoinF32(bufs[..i + 1]) == JoinF32(bufs[..i]) + bufs[i].f32
  {
    assert bufs[..i + 1][..i] == bufs[..i];
  }

  lemma EmptyRun(ops: FloatOps, cfg: Config, input: PCM)
    requires cfg.Valid() && input.IsEmpty()
    ensures Joined(cfg, RunAll(ops, cfg, [input])) == Audio(cfg, [])
  {
    hide RunAll, Joined, Audio;
    assert [input][..0] == [];
    assert Segments(ops, cfg, [input]) == [];
    SamplesOfRun(ops, cfg, [input]);
  }

  /** Resampler.Resample. */
  method ResampleOnce(ops: FloatOps, cfg: Config, input: PCM) returns (r: Result<PCM>)
    requires cfg.Valid() && cfg.frameSize == 0
    ensures r.Err? <==> !input.Valid()
    ensures r.Ok? ==> r.value.pts == input.pts
    ensures r.Ok? && input.IsEmpty() ==> r.value.IsEmpty()
    ensures r.Ok? ==>
      (r.value.SameAudio(Joined(cfg, RunAll(ops, cfg, [input])))
       <==> (input.WholeFrames() || input.sampleRate != cfg.sampleRate || input.channels != cfg.channels))
  {
    hide RunAll, JoinS16, JoinF32, Narrow, Widen;
    var v := Validate(input.format, input.sampleRate, input.channels);
    if v.Err? {
      return Err(v.error);
    }
    if input.sampleRate == cfg.sampleRate && input.channels == cfg.channels {
      var same: PCM;
      if cfg.format == FormatF32 {
        same := ToFloat32(input);
      } else {
        same := ToInt16(input);
      }
      OneMatching(ops, cfg, input, same);
      return Ok(same);
    }
    var out := Empty(cfg.format, cfg.sampleRate, cfg.channels).(pts := input.pts);
    if input.IsEmpty() {
      EmptyRun(ops, cfg, input);
      return Ok(out);
    }
    var bufs := RunStream(ops, cfg, [input]);
    // out.Append of every buffer: rate, channel count and format already agree.
    var s, f := [], [];
    assert JoinS16(bufs[..0]) == [] && JoinF32(bufs[..0]) == [] by { JoinNone(); }
    for i := 0 to |bufs|
      invariant s == JoinS16(bufs[..i]) && f == JoinF32(bufs[..i])
    {
      JoinStep(bufs, i);
      s := s + bufs[i].s16;
      f := f + bufs[i].f32;
    }
    assert bufs[..|bufs|] == bufs;
    r := Ok(out.(s16 := s, f32 := f));
  }
}
