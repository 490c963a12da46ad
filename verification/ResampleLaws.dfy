/** Laws of whole runs of the resampler: how a stream is divided into Writes does
    not matter, how long the output is, and what a change of shape does. */
module ResampleLaws {
  import opened Bits
  import opened Float32
  import opened Pcm
  import opened Arith
  import opened ResampleSpec

  // ---- runs ----

  function Accepted(r: Result<seq<PCM>>): seq<PCM> { if r.Ok? then r.value else [] }

  /** The stream and all buffers returned after writing the pieces in turn. A
      rejected piece returns nothing and changes nothing. */
  function RunFrom(ops: FloatOps, cfg: Config, st: Stream, pieces: seq<PCM>): (r: (Stream, seq<PCM>))
    requires cfg.Valid() && st.Valid()
    ensures r.0.Valid()
    decreases |pieces|
  {
    if pieces == [] then (st, [])
    else
      var (mid, out) := RunFrom(ops, cfg, st, pieces[..|pieces| - 1]);
      var (end, r) := WriteStep(ops, cfg, mid, pieces[|pieces| - 1]);
      (end, out + Accepted(r))
  }

  /** Everything a fresh resampler returns for the pieces followed by Flush. */
  function RunAll(ops: FloatOps, cfg: Config, pieces: seq<PCM>): seq<PCM>
    requires cfg.Valid()
  {
    var (st, out) := RunFrom(ops, cfg, Fresh, pieces);
    out + FlushOut(ops, cfg, st)
  }

  // ---- the reference: independent segments ----

  predicate Usable(pcm: PCM) { !pcm.IsEmpty() && pcm.Valid() }

  ghost predicate AllStreaming(segs: seq<Stream>) {
    forall i :: 0 <= i < |segs| ==> segs[i].Streaming? && segs[i].Valid()
  }

  /** A usable piece extends the last segment if the shape is the same, and
      starts a new segment otherwise. */
  function AddPiece(ops: FloatOps, cfg: Config, segs: seq<Stream>, pcm: PCM): (r: seq<Stream>)
    requires cfg.Valid() && AllStreaming(segs)
    ensures AllStreaming(r)
  {
    if !Usable(pcm) then segs
    else if segs != [] && segs[|segs| - 1].Matches(pcm) then
      segs[..|segs| - 1] + [Extend(ops, cfg, segs[|segs| - 1], pcm)]
    else segs + [Extend(ops, cfg, Fresh, pcm)]
  }

  /** The pieces divided into maximal runs of equal rate and channel count. */
  function Segments(ops: FloatOps, cfg: Config, pieces: seq<PCM>): (segs: seq<Stream>)
    requires cfg.Valid()
    ensures AllStreaming(segs)
    decreases |pieces|
  {
    if pieces == [] then []
    else AddPiece(ops, cfg, Segments(ops, cfg, pieces[..|pieces| - 1]), pieces[|pieces| - 1])
  }

  function SegmentOutput(ops: FloatOps, cfg: Config, st: Stream): seq<F32>
    requires cfg.Valid() && st.Streaming? && st.Valid()
  {
    var p := MakePlan(cfg, st.inRate, st.inChannels);
    Output(ops, p, st.fed, TotalCount(p, st.fed))
  }

  /** A segment resampled as a whole and cut from its beginning. */
  function SegmentBuffers(ops: FloatOps, cfg: Config, st: Stream): seq<PCM>
    requires cfg.Valid() && st.Streaming? && st.Valid()
  {
    var p := MakePlan(cfg, st.inRate, st.inChannels);
    Render(cfg, SegmentOutput(ops, cfg, st), Cut(cfg.frameSize, 0, TotalCount(p, st.fed), true))
  }

  /** The buffers of a segment that are complete before its flush. */
  function SegmentReady(ops: FloatOps, cfg: Config, st: Stream): seq<PCM>
    requires cfg.Valid() && st.Streaming? && st.Valid()
  {
    var p := MakePlan(cfg, st.inRate, st.inChannels);
    Render(cfg, Output(ops, p, st.fed, ReadyCount(p, st.fed)), Cut(cfg.frameSize, 0, ReadyCount(p, st.fed), false))
  }

  function AllBuffers(ops: FloatOps, cfg: Config, segs: seq<Stream>): seq<PCM>
    requires cfg.Valid() && AllStreaming(segs)
  {
    if segs == [] then []
    else AllBuffers(ops, cfg, segs[..|segs| - 1]) + SegmentBuffers(ops, cfg, segs[|segs| - 1])
  }

  function AllOutput(ops: FloatOps, cfg: Config, segs: seq<Stream>): seq<F32>
    requires cfg.Valid() && AllStreaming(segs)
  {
    if segs == [] then []
    else AllOutput(ops, cfg, segs[..|segs| - 1]) + SegmentOutput(ops, cfg, segs[|segs| - 1])
  }

  // ---- cutting in rounds ----

  /** Rounds of cutting compose: what one round leaves, the next continues. */
  lemma {:induction false} CutSplit(frameSize: nat, start: nat, a: nat, b: nat, final: bool)
    requires frameSize > 0 && a <= b
    ensures Cut(frameSize, start, start + a, false)
            + Cut(frameSize, start + Taken(frameSize, a, false), start + b, final)
         == Cut(frameSize, start, start + b, final)
    decreases a
  {
    if frameSize <= a {
      CutSplit(frameSize, start + frameSize, a - frameSize, b - frameSize, final);
      var first := [Span(start, frameSize)];
      var k := Taken(frameSize, a - frameSize, false);
      assert start + a == start + frameSize + (a - frameSize) && start + b == start + frameSize + (b - frameSize);
      AssocSpans(first, Cut(frameSize, start + frameSize, start + a, false),
                 Cut(frameSize, start + frameSize + k, start + b, final));
    }
  }

  lemma AssocSpans(a: seq<Span>, b: seq<Span>, c: seq<Span>)
    ensures (a + b) + c == a + (b + c)
  {
  }

  lemma {:induction false} CutWithin(frameSize: nat, start: nat, total: nat, final: bool, i: nat)
    requires start <= total && i < |Cut(frameSize, start, total, final)|
    ensures var s := Cut(frameSize, start, total, final)[i]; start <= s.start && s.start + s.n <= total
    decreases total - start
  {
    var n := NextSize(frameSize, total - start);
    if i > 0 {
      CutWithin(frameSize, start + n, total, final, i - 1);
    }
  }

  /** Buffers cut from a prefix of the output are buffers of the output. */
  lemma RenderPrefix(cfg: Config, o: seq<F32>, long: seq<F32>, total: nat, final: bool)
    requires cfg.Valid() && o <= long && |o| == Samples(total, cfg.channels)
    ensures Render(cfg, o, Cut(cfg.frameSize, 0, total, final))
         == Render(cfg, long, Cut(cfg.frameSize, 0, total, final))
  {
    hide OfFloat, Pts, Samples, Cut, Slice;
    var spans := Cut(cfg.frameSize, 0, total, final);
    forall i | 0 <= i < |spans|
      ensures Buffer(cfg, o, spans[i].start, spans[i].n) == Buffer(cfg, long, spans[i].start, spans[i].n)
    {
      CutWithin(cfg.frameSize, 0, total, final, i);
      var s := spans[i];
      SamplesAdd(s.start + s.n, total - (s.start + s.n), cfg.channels);
      SlicePrefix(o, long, Samples(s.start, cfg.channels), Samples(s.start + s.n, cfg.channels));
    }
  }

  lemma SlicePrefix(o: seq<F32>, long: seq<F32>, lo: int, hi: int)
    requires o <= long && hi <= |o|
    ensures Slice(o, lo, hi) == Slice(long, lo, hi)
  {
  }

  lemma SliceJoin(o: seq<F32>, a: int, b: int, c: int)
    requires 0 <= a <= b <= c <= |o|
    ensures Slice(o, a, b) + Slice(o, b, c) == Slice(o, a, c) && Slice(o, a, a) == []
  {
  }

  lemma RenderConcat(cfg: Config, o: seq<F32>, a: seq<Span>, b: seq<Span>)
    requires cfg.Valid()
    ensures Render(cfg, o, a + b) == Render(cfg, o, a) + Render(cfg, o, b)
  {
  }

  lemma RenderNone(cfg: Config, o: seq<F32>)
    requires cfg.Valid()
    ensures Render(cfg, o, []) == []
  {
  }

  /** One more round of buffers over a longer output of the same plan. */
  lemma RoundJoins(ops: FloatOps, p: Plan, m: seq<F32>, x: seq<F32>, total: nat, final: bool)
    requires p.Valid() && p.cfg.frameSize > 0 && ReadyCount(p, m) <= total
    ensures Emitted(p, m) <= total
    ensures Render(p.cfg, Output(ops, p, m, ReadyCount(p, m)), Cut(p.cfg.frameSize, 0, ReadyCount(p, m), false))
            + Render(p.cfg, Output(ops, p, m + x, total), Cut(p.cfg.frameSize, Emitted(p, m), total, final))
         == Render(p.cfg, Output(ops, p, m + x, total), Cut(p.cfg.frameSize, 0, total, final))
  {
    hide Render, Output;
    var ready, fs := ReadyCount(p, m), p.cfg.frameSize;
    var o, long := Output(ops, p, m, ready), Output(ops, p, m + x, total);
    OutputStable(ops, p, m, x, ready);
    OutputPrefix(ops, p, m + x, ready, total);
    OutputLength(ops, p, m, ready);
    RenderPrefix(p.cfg, o, long, ready, false);
    CutSplit(fs, 0, ready, total, final);
    RenderConcat(p.cfg, long, Cut(fs, 0, ready, false), Cut(fs, Emitted(p, m), total, final));
  }

  lemma WriteJoins(ops: FloatOps, cfg: Config, st: Stream, pcm: PCM)
    requires cfg.Valid() && cfg.frameSize > 0 && pcm.Valid() && st.Valid() && st.Matches(pcm)
    ensures SegmentReady(ops, cfg, st) + WriteOut(ops, cfg, st, pcm)
         == SegmentReady(ops, cfg, Extend(ops, cfg, st, pcm))
  {
    hide Render, Output, Cut, MakePlan, ReadyCount, Emitted, Contribution;
    var p := MakePlan(cfg, pcm.sampleRate, pcm.channels);
    var x := Contribution(ops, p, pcm);
    ReadyGrows(p, st.fed, x);
    RoundJoins(ops, p, st.fed, x, ReadyCount(p, st.fed + x), false);
  }

  lemma FlushJoins(ops: FloatOps, cfg: Config, st: Stream)
    requires cfg.Valid() && cfg.frameSize > 0 && st.Streaming? && st.Valid()
    ensures SegmentReady(ops, cfg, st) + FlushOut(ops, cfg, st) == SegmentBuffers(ops, cfg, st)
  {
    hide Render, Output, Cut, MakePlan, ReadyCount, Emitted, TotalCount;
    var p := MakePlan(cfg, st.inRate, st.inChannels);
    ReadyWithinTotal(p, st.fed);
    assert st.fed + [] == st.fed;
    RoundJoins(ops, p, st.fed, [], TotalCount(p, st.fed), true);
  }

  lemma FirstWriteReady(ops: FloatOps, cfg: Config, st: Stream, pcm: PCM)
    requires cfg.Valid() && pcm.Valid() && !st.Matches(pcm)
    ensures WriteOut(ops, cfg, st, pcm) == SegmentReady(ops, cfg, Extend(ops, cfg, st, pcm))
    ensures Extend(ops, cfg, st, pcm) == Extend(ops, cfg, Fresh, pcm)
  {
    hide Render, Output, Cut, MakePlan, ReadyCount, Emitted, Contribution;
    NothingReady(MakePlan(cfg, pcm.sampleRate, pcm.channels));
  }

  /** The state and output of a run, in terms of its segments. */
  ghost predicate RunMatches(ops: FloatOps, cfg: Config, st: Stream, out: seq<PCM>, segs: seq<Stream>)
    requires cfg.Valid() && AllStreaming(segs)
  {
    if segs == [] then st == Fresh && out == []
    else
      && st == segs[|segs| - 1]
      && out == AllBuffers(ops, cfg, segs[..|segs| - 1]) + SegmentReady(ops, cfg, st)
  }

  lemma AssocBuffers(a: seq<PCM>, b: seq<PCM>, c: seq<PCM>)
    ensures (a + b) + c == a + (b + c)
  {
  }

  lemma RunMatchesStep(
      ops: FloatOps, cfg: Config, st: Stream, out: seq<PCM>, segs: seq<Stream>, pcm: PCM,
      step: (Stream, Result<seq<PCM>>))
    requires cfg.Valid() && cfg.frameSize > 0 && AllStreaming(segs) && st.Valid()
    requires RunMatches(ops, cfg, st, out, segs) && step == WriteStep(ops, cfg, st, pcm)
    ensures RunMatches(ops, cfg, step.0, out + Accepted(step.1), AddPiece(ops, cfg, segs, pcm))
  {
    hide SegmentReady, WriteOut, Extend, FlushOut, AllBuffers;
    if !Usable(pcm) {
      assert out + [] == out;
      return;
    }
    var next, wrote := Extend(ops, cfg, st, pcm), WriteOut(ops, cfg, st, pcm);
    if st.Matches(pcm) {
      WriteJoins(ops, cfg, st, pcm);
      var init := segs[..|segs| - 1];
      assert (init + [next])[..|init|] == init;
      assert [] + wrote == wrote;
      AssocBuffers(AllBuffers(ops, cfg, init), SegmentReady(ops, cfg, st), wrote);
    } else {
      FirstWriteReady(ops, cfg, st, pcm);
      assert (segs + [next])[..|segs|] == segs;
      RunMatchesFlush(ops, cfg, st, out, segs);
      AssocBuffers(out, FlushOut(ops, cfg, st), wrote);
    }
  }

  /** Flushing completes the last segment. */
  lemma RunMatchesFlush(ops: FloatOps, cfg: Config, st: Stream, out: seq<PCM>, segs: seq<Stream>)
    requires cfg.Valid() && cfg.frameSize > 0 && AllStreaming(segs) && st.Valid()
    requires RunMatches(ops, cfg, st, out, segs)
    ensures out + FlushOut(ops, cfg, st) == AllBuffers(ops, cfg, segs)
  {
    hide SegmentReady, SegmentBuffers;
    if segs != [] {
      hide FlushOut;
      FlushJoins(ops, cfg, st);
      AssocBuffers(AllBuffers(ops, cfg, segs[..|segs| - 1]), SegmentReady(ops, cfg, st), FlushOut(ops, cfg, st));
    }
  }

  lemma {:induction false} RunMatchesAlways(ops: FloatOps, cfg: Config, pieces: seq<PCM>)
    requires cfg.Valid() && cfg.frameSize > 0
    ensures var r := RunFrom(ops, cfg, Fresh, pieces); RunMatches(ops, cfg, r.0, r.1, Segments(ops, cfg, pieces))
    decreases |pieces|
  {
    hide RunMatches, WriteStep, AddPiece;
    if pieces == [] {
      assert RunMatches(ops, cfg, Fresh, [], []) by { RunMatchesStart(ops, cfg); }
    } else {
      var init, last := pieces[..|pieces| - 1], pieces[|pieces| - 1];
      RunMatchesAlways(ops, cfg, init);
      var r := RunFrom(ops, cfg, Fresh, init);
      RunMatchesStep(ops, cfg, r.0, r.1, Segments(ops, cfg, init), last, WriteStep(ops, cfg, r.0, last));
    }
  }

  lemma RunMatchesStart(ops: FloatOps, cfg: Config)
    requires cfg.Valid()
    ensures RunMatches(ops, cfg, Fresh, [], [])
  {
  }

  /** With a fixed frame size the exact list of buffers, timestamps included, is
      that of every segment resampled on its own and cut from its beginning: no
      piece boundary shows, and a change of shape loses nothing. */
  lemma BuffersOfRun(ops: FloatOps, cfg: Config, pieces: seq<PCM>)
    requires cfg.Valid() && cfg.frameSize > 0
    ensures RunAll(ops, cfg, pieces) == AllBuffers(ops, cfg, Segments(ops, cfg, pieces))
  {
    hide Segments, RunFrom, RunMatches, FlushOut;
    RunMatchesAlways(ops, cfg, pieces);
    var r := RunFrom(ops, cfg, Fresh, pieces);
    RunMatchesFlush(ops, cfg, r.0, r.1, Segments(ops, cfg, pieces));
  }

  // ---- the same for the samples alone, whatever the frame size ----

  function JoinS16(bufs: seq<PCM>): seq<int16> {
    if bufs == [] then [] else JoinS16(bufs[..|bufs| - 1]) + bufs[|bufs| - 1].s16
  }

  function JoinF32(bufs: seq<PCM>): seq<F32> {
    if bufs == [] then [] else JoinF32(bufs[..|bufs| - 1]) + bufs[|bufs| - 1].f32
  }

  /** The buffers appended to one another. */
  function Joined(cfg: Config, bufs: seq<PCM>): PCM {
    PCM(cfg.format, cfg.sampleRate, cfg.channels, 0, JoinS16(bufs), JoinF32(bufs))
  }

  /** Output samples as one buffer of the configured format. */
  function Audio(cfg: Config, samples: seq<F32>): PCM {
    OfFloat(samples, cfg.format, cfg.sampleRate, cfg.channels, 0)
  }

  lemma {:induction false} JoinConcat(a: seq<PCM>, b: seq<PCM>)
    ensures JoinS16(a + b) == JoinS16(a) + JoinS16(b) && JoinF32(a + b) == JoinF32(a) + JoinF32(b)
    decreases |b|
  {
    if b == [] {
      assert a + b == a;
    } else {
      var init := b[..|b| - 1];
      assert (a + b)[..|a + b| - 1] == a + init;
      JoinConcat(a, init);
      assert JoinS16(a) + (JoinS16(init) + b[|b| - 1].s16) == (JoinS16(a) + JoinS16(init)) + b[|b| - 1].s16;
      assert JoinF32(a) + (JoinF32(init) + b[|b| - 1].f32) == (JoinF32(a) + JoinF32(init)) + b[|b| - 1].f32;
    }
  }

  lemma JoinNone()
    ensures JoinS16([]) == [] && JoinF32([]) == []
  {
  }

  lemma JoinOne(b: PCM)
    ensures JoinS16([b]) == b.s16 && JoinF32([b]) == b.f32
  {
    JoinNone();
    assert [b][..0] == [];
    assert [] + b.s16 == b.s16 && [] + b.f32 == b.f32;
  }

  /** Joining buffers is joining the samples they were made from. */
  lemma AudioJoins(cfg: Config, a: seq<PCM>, b: seq<PCM>, x: seq<F32>, y: seq<F32>)
    requires cfg.Valid() && Joined(cfg, a) == Audio(cfg, x) && Joined(cfg, b) == Audio(cfg, y)
    ensures Joined(cfg, a + b) == Audio(cfg, x + y)
  {
    JoinConcat(a, b);
    NarrowConcat(x, y);
  }

  lemma AudioNone(cfg: Config)
    requires cfg.Valid()
    ensures Joined(cfg, []) == Audio(cfg, [])
  {
  }

  lemma AudioOne(cfg: Config, o: seq<F32>, start: nat, n: nat)
    requires cfg.Valid()
    ensures Joined(cfg, [Buffer(cfg, o, start, n)])
         == Audio(cfg, Slice(o, Samples(start, cfg.channels), Samples(start + n, cfg.channels)))
  {
    JoinOne(Buffer(cfg, o, start, n));
  }

  lemma {:induction false} SamplesMonotone(a: nat, b: nat, per: nat)
    requires a <= b
    ensures Samples(a, per) <= Samples(b, per)
  {
    SamplesAdd(a, b - a, per);
  }

  /** One round of cutting hands out exactly the frames it takes. */
  lemma {:induction false} AudioOfCut(cfg: Config, o: seq<F32>, start: nat, total: nat, final: bool)
    requires cfg.Valid() && start <= total && Samples(total, cfg.channels) <= |o|
    ensures var k := Taken(cfg.frameSize, total - start, final);
            Joined(cfg, Render(cfg, o, Cut(cfg.frameSize, start, total, final)))
            == Audio(cfg, Slice(o, Samples(start, cfg.channels), Samples(start + k, cfg.channels)))
    decreases total - start
  {
    hide Buffer, Audio, Joined, Render, Samples, Slice;
    var per, fs := cfg.channels, cfg.frameSize;
    var n := NextSize(fs, total - start);
    SamplesMonotone(start, total, per);
    if start == total || (n < fs && !final) {
      AudioNone(cfg);
      RenderNone(cfg, o);
      SliceJoin(o, Samples(start, per), Samples(start, per), Samples(start, per));
    } else {
      AudioOfCut(cfg, o, start + n, total, final);
      var k := Taken(fs, total - (start + n), final);
      var rest := Cut(fs, start + n, total, final);
      RenderConcat(cfg, o, [Span(start, n)], rest);
      AudioOne(cfg, o, start, n);
      RenderAppend(cfg, o, [], Span(start, n));
      RenderNone(cfg, o);
      assert [] + [Span(start, n)] == [Span(start, n)];
      assert [] + [Buffer(cfg, o, start, n)] == [Buffer(cfg, o, start, n)];
      SamplesMonotone(start, start + n, per);
      SamplesMonotone(start + n, start + n + k, per);
      SamplesMonotone(start + n + k, total, per);
      var x := Slice(o, Samples(start, per), Samples(start + n, per));
      var y := Slice(o, Samples(start + n, per), Samples(start + n + k, per));
      SliceJoin(o, Samples(start, per), Samples(start + n, per), Samples(start + n + k, per));
      AudioJoins(cfg, [Buffer(cfg, o, start, n)], Render(cfg, o, rest), x, y);
    }
  }

  /** Frames a to b of an output complete the first a frames to the first b. */
  lemma OutputSlice(ops: FloatOps, p: Plan, m: seq<F32>, a: nat, b: nat, n: nat)
    requires p.Valid() && a <= b <= n
    ensures Output(ops, p, m, a) + Slice(Output(ops, p, m, n), Samples(a, p.cfg.channels), Samples(b, p.cfg.channels))
         == Output(ops, p, m, b)
  {
    hide Output, Samples, Slice;
    OutputPrefix(ops, p, m, a, n);
    OutputPrefix(ops, p, m, b, n);
    OutputLength(ops, p, m, a);
    OutputLength(ops, p, m, b);
    SamplesMonotone(a, b, p.cfg.channels);
    PrefixSlice(Output(ops, p, m, a), Output(ops, p, m, b), Output(ops, p, m, n));
  }

  lemma PrefixSlice(x: seq<F32>, y: seq<F32>, o: seq<F32>)
    requires x <= o && y <= o && |x| <= |y|
    ensures x + Slice(o, |x|, |y|) == y
  {
  }

  /** The output handed out by a stream that has not been flushed. */
  function Delivered(ops: FloatOps, cfg: Config, st: Stream): seq<F32>
    requires cfg.Valid() && st.Streaming? && st.Valid()
  {
    var p := MakePlan(cfg, st.inRate, st.inChannels);
    Output(ops, p, st.fed, Emitted(p, st.fed))
  }

  lemma WriteDelivers(ops: FloatOps, cfg: Config, st: Stream, pcm: PCM, before: seq<PCM>, x: seq<F32>)
    requires cfg.Valid() && pcm.Valid() && st.Valid() && st.Matches(pcm)
    requires Joined(cfg, before) == Audio(cfg, x + Delivered(ops, cfg, st))
    ensures Joined(cfg, before + WriteOut(ops, cfg, st, pcm))
         == Audio(cfg, x + Delivered(ops, cfg, Extend(ops, cfg, st, pcm)))
  {
    hide Joined, Audio, Render, Cut, Output, MakePlan, ReadyCount, Emitted, Contribution, Taken, Samples;
    var p := MakePlan(cfg, pcm.sampleRate, pcm.channels);
    var m, more := st.fed, Contribution(ops, p, pcm);
    var after := m + more;
    var a, b, n := Emitted(p, m), Emitted(p, after), ReadyCount(p, after);
    EmittedAgain(p, m, more);
    ReadyWithinTotal(p, after);
    ReadyWithinTotal(p, m);
    var o := Output(ops, p, after, n);
    OutputLength(ops, p, after, n);
    AudioOfCut(cfg, o, a, n, false);
    OutputStable(ops, p, m, more, a);
    OutputSlice(ops, p, after, a, b, n);
    var piece := Slice(o, Samples(a, cfg.channels), Samples(b, cfg.channels));
    AudioJoins(cfg, before, WriteOut(ops, cfg, st, pcm), x + Output(ops, p, m, a), piece);
    assert (x + Output(ops, p, m, a)) + piece == x + (Output(ops, p, m, a) + piece);
  }

  lemma FlushDelivers(ops: FloatOps, cfg: Config, st: Stream, before: seq<PCM>, x: seq<F32>)
    requires cfg.Valid() && st.Streaming? && st.Valid()
    requires Joined(cfg, before) == Audio(cfg, x + Delivered(ops, cfg, st))
    ensures Joined(cfg, before + FlushOut(ops, cfg, st)) == Audio(cfg, x + SegmentOutput(ops, cfg, st))
  {
    hide Joined, Audio, Render, Cut, Output, MakePlan, ReadyCount, Emitted, TotalCount, Taken, Samples;
    var p := MakePlan(cfg, st.inRate, st.inChannels);
    var a, n := Emitted(p, st.fed), TotalCount(p, st.fed);
    ReadyWithinTotal(p, st.fed);
    TakenFinal(cfg.frameSize, n - a);
    var o := Output(ops, p, st.fed, n);
    OutputLength(ops, p, st.fed, n);
    AudioOfCut(cfg, o, a, n, true);
    OutputSlice(ops, p, st.fed, a, n, n);
    var piece := Slice(o, Samples(a, cfg.channels), Samples(n, cfg.channels));
    AudioJoins(cfg, before, FlushOut(ops, cfg, st), x + Output(ops, p, st.fed, a), piece);
    assert (x + Output(ops, p, st.fed, a)) + piece == x + (Output(ops, p, st.fed, a) + piece);
  }

  lemma {:induction false} TakenFinal(frameSize: nat, available: nat)
    ensures Taken(frameSize, available, true) == available
  {
    if available > 0 {
      TakenFinal(frameSize, available - NextSize(frameSize, available));
    }
  }

  lemma FirstDelivers(ops: FloatOps, cfg: Config, st: Stream, pcm: PCM, before: seq<PCM>, x: seq<F32>)
    requires cfg.Valid() && pcm.Valid() && !st.Matches(pcm)
    requires Joined(cfg, before) == Audio(cfg, x)
    ensures Joined(cfg, before + WriteOut(ops, cfg, st, pcm))
         == Audio(cfg, x + Delivered(ops, cfg, Extend(ops, cfg, st, pcm)))
  {
    hide Joined, Audio, Render, Cut, Output, MakePlan, ReadyCount, Emitted, Contribution, Taken;
    var p := MakePlan(cfg, pcm.sampleRate, pcm.channels);
    var empty := Streaming(pcm.sampleRate, pcm.channels, []);
    NothingReady(p);
    assert Delivered(ops, cfg, empty) == [] by { OutputLength(ops, p, [], 0); }
    assert x + [] == x;
    WriteDelivers(ops, cfg, empty, pcm, before, x);
  }

  ghost predicate Delivers(ops: FloatOps, cfg: Config, st: Stream, out: seq<PCM>, segs: seq<Stream>)
    requires cfg.Valid() && AllStreaming(segs)
  {
    if segs == [] then st == Fresh && out == []
    else
      && st == segs[|segs| - 1]
      && Joined(cfg, out) == Audio(cfg, AllOutput(ops, cfg, segs[..|segs| - 1]) + Delivered(ops, cfg, st))
  }

  lemma DeliversStep(
      ops: FloatOps, cfg: Config, st: Stream, out: seq<PCM>, segs: seq<Stream>, pcm: PCM,
      step: (Stream, Result<seq<PCM>>))
    requires cfg.Valid() && AllStreaming(segs) && st.Valid()
    requires Delivers(ops, cfg, st, out, segs) && step == WriteStep(ops, cfg, st, pcm)
    ensures Delivers(ops, cfg, step.0, out + Accepted(step.1), AddPiece(ops, cfg, segs, pcm))
  {
    hide Delivered, WriteOut, Extend, AllOutput, FlushOut, Joined, Audio;
    if !Usable(pcm) {
      assert out + [] == out;
      return;
    }
    var next, wrote := Extend(ops, cfg, st, pcm), WriteOut(ops, cfg, st, pcm);
    if st.Matches(pcm) {
      var init := segs[..|segs| - 1];
      assert (init + [next])[..|init|] == init;
      assert [] + wrote == wrote;
      WriteDelivers(ops, cfg, st, pcm, out, AllOutput(ops, cfg, init));
    } else {
      assert next == Extend(ops, cfg, Fresh, pcm) by { FirstWriteReady(ops, cfg, st, pcm); }
      assert (segs + [next])[..|segs|] == segs;
      DeliversFlush(ops, cfg, st, out, segs);
      FirstDelivers(ops, cfg, st, pcm, out + FlushOut(ops, cfg, st), AllOutput(ops, cfg, segs));
      AssocBuffers(out, FlushOut(ops, cfg, st), wrote);
    }
  }

  lemma DeliversFlush(ops: FloatOps, cfg: Config, st: Stream, out: seq<PCM>, segs: seq<Stream>)
    requires cfg.Valid() && AllStreaming(segs) && st.Valid() && Delivers(ops, cfg, st, out, segs)
    ensures Joined(cfg, out + FlushOut(ops, cfg, st)) == Audio(cfg, AllOutput(ops, cfg, segs))
  {
    hide Delivered, SegmentOutput, Joined, Audio;
    if segs == [] {
      AudioNone(cfg);
      assert out + FlushOut(ops, cfg, st) == [];
    } else {
      hide FlushOut;
      FlushDelivers(ops, cfg, st, out, AllOutput(ops, cfg, segs[..|segs| - 1]));
    }
  }

  lemma {:induction false} DeliversAlways(ops: FloatOps, cfg: Config, pieces: seq<PCM>)
    requires cfg.Valid()
    ensures var r := RunFrom(ops, cfg, Fresh, pieces); Delivers(ops, cfg, r.0, r.1, Segments(ops, cfg, pieces))
    decreases |pieces|
  {
    if pieces != [] {
      hide Delivers, WriteStep, AddPiece;
      var init, last := pieces[..|pieces| - 1], pieces[|pieces| - 1];
      DeliversAlways(ops, cfg, init);
      var r := RunFrom(ops, cfg, Fresh, init);
      DeliversStep(ops, cfg, r.0, r.1, Segments(ops, cfg, init), last, WriteStep(ops, cfg, r.0, last));
    }
  }

  /** Whatever the frame size, the samples of a run are those of its segments
      resampled one by one, in order. */
  lemma SamplesOfRun(ops: FloatOps, cfg: Config, pieces: seq<PCM>)
    requires cfg.Valid()
    ensures Joined(cfg, RunAll(ops, cfg, pieces)) == Audio(cfg, AllOutput(ops, cfg, Segments(ops, cfg, pieces)))
  {
    hide Segments, RunFrom, Delivers, FlushOut, Joined, Audio, AllOutput;
    DeliversAlways(ops, cfg, pieces);
    var r := RunFrom(ops, cfg, Fresh, pieces);
    DeliversFlush(ops, cfg, r.0, r.1, Segments(ops, cfg, pieces));
  }

  // ---- split invariance ----

  /** The input frame at base. */
  function FrameAt(src: seq<F32>, base: nat, channels: nat): (f: seq<F32>)
    ensures |f| == channels && forall k :: 0 <= k < channels ==> f[k] == At(src, base + k)
  {
    seq<F32>(channels, k requires 0 <= k < channels => At(src, base + k))
  }

  lemma {:induction false} FoldSame(
      ops: FloatOps, a: seq<F32>, abase: nat, b: seq<F32>, bbase: nat, channels: nat, mid: nat, s: nat,
      acc: F32, n: nat)
    requires mid > 0 && FrameAt(a, abase, channels) == FrameAt(b, bbase, channels)
    ensures FoldChannels(ops, a, abase, channels, mid, s, acc, n)
         == FoldChannels(ops, b, bbase, channels, mid, s, acc, n)
    decreases channels - s
  {
    if s < channels {
      assert FrameAt(a, abase, channels)[s] == FrameAt(b, bbase, channels)[s];
      FoldSame(ops, a, abase, b, bbase, channels, mid, s + mid, (ops.add)(acc, At(a, abase + s)), n + 1);
    }
  }

  /** Frame arithmetic of sample j of a downmix of a + b, a being fa whole frames. */
  lemma DownmixIndex(la: nat, lb: nat, fa: nat, channels: nat, mid: nat, j: nat)
    requires channels > 0 && mid > 0 && la == fa * channels && j < (fa + lb / channels) * mid
    ensures fa * mid >= 0
    ensures j < fa * mid ==> 0 <= j / mid * channels && j / mid * channels + channels <= la
    ensures j >= fa * mid ==>
      && j / mid == fa + (j - fa * mid) / mid && j % mid == (j - fa * mid) % mid
      && j / mid * channels == la + (j - fa * mid) / mid * channels
      && 0 <= (j - fa * mid) / mid * channels && j - fa * mid < lb / channels * mid
  {
    MulLe(0, fa, mid);
    DivLess(j, mid, fa);
    DivLess(j, mid, 0);
    if j < fa * mid {
      MulLe(0, j / mid, channels);
      MulLe(j / mid + 1, fa, channels);
      MulSucc(j / mid, channels);
    } else {
      DivAddMultiple(fa, j - fa * mid, mid);
      DivLess(j - fa * mid, mid, 0);
      MulLe(0, (j - fa * mid) / mid, channels);
      Distribute(fa, (j - fa * mid) / mid, channels);
      Distribute(fa, lb / channels, mid);
    }
  }

  lemma FrameInPrefix(a: seq<F32>, b: seq<F32>, base: nat, channels: nat)
    requires base + channels <= |a|
    ensures FrameAt(a + b, base, channels) == FrameAt(a, base, channels)
  {
  }

  lemma FrameInSuffix(a: seq<F32>, b: seq<F32>, base: nat, channels: nat)
    ensures FrameAt(a + b, |a| + base, channels) == FrameAt(b, base, channels)
  {
  }

  lemma DownmixAt(ops: FloatOps, src: seq<F32>, channels: nat, mid: nat, j: nat)
    requires channels > 0 && mid > 0 && j < |src| / channels * mid
    ensures j / mid * channels >= 0
    ensures Downmix(ops, src, channels, mid)[j] == Average(ops, src, j / mid * channels, channels, mid, j % mid)
  {
    DivLess(j, mid, 0);
    MulLe(0, j / mid, channels);
  }

  lemma AverageSame(ops: FloatOps, a: seq<F32>, abase: nat, b: seq<F32>, bbase: nat, channels: nat, mid: nat, c: nat)
    requires mid > 0 && FrameAt(a, abase, channels) == FrameAt(b, bbase, channels)
    ensures Average(ops, a, abase, channels, mid, c) == Average(ops, b, bbase, channels, mid, c)
  {
    FoldSame(ops, a, abase, b, bbase, channels, mid, c, ZERO, 0);
  }

  lemma DownmixSample(ops: FloatOps, a: seq<F32>, b: seq<F32>, fa: nat, channels: nat, mid: nat, j: nat)
    requires channels > 0 && mid > 0 && |a| == fa * channels && |a| / channels == fa
    requires |a + b| / channels == fa + |b| / channels && j < (fa + |b| / channels) * mid
    ensures fa * mid >= 0
    ensures j < fa * mid ==> Downmix(ops, a + b, channels, mid)[j] == Downmix(ops, a, channels, mid)[j]
    ensures j >= fa * mid ==>
      && j - fa * mid < |Downmix(ops, b, channels, mid)|
      && Downmix(ops, a + b, channels, mid)[j] == Downmix(ops, b, channels, mid)[j - fa * mid]
  {
    hide Downmix, Average, FrameAt;
    DownmixIndex(|a|, |b|, fa, channels, mid, j);
    DownmixAt(ops, a + b, channels, mid, j);
    var base := j / mid * channels;
    if j < fa * mid {
      DownmixAt(ops, a, channels, mid, j);
      FrameInPrefix(a, b, base, channels);
      AverageSame(ops, a + b, base, a, base, channels, mid, j % mid);
    } else {
      var k := j - fa * mid;
      DownmixAt(ops, b, channels, mid, k);
      FrameInSuffix(a, b, k / mid * channels, channels);
      AverageSame(ops, a + b, base, b, k / mid * channels, channels, mid, j % mid);
    }
  }

  lemma DownmixConcat(ops: FloatOps, a: seq<F32>, b: seq<F32>, channels: nat, mid: nat)
    requires channels > 0 && mid > 0 && |a| % channels == 0
    ensures Downmix(ops, a + b, channels, mid) == Downmix(ops, a, channels, mid) + Downmix(ops, b, channels, mid)
  {
    hide Downmix;
    var fa := |a| / channels;
    DivMod(|a|, channels);
    DivLess(|a|, channels, 0);
    DivAddMultiple(fa, |b|, channels);
    DivAddMultiple(fa, 0, channels);
    DivLess(|b|, channels, 0);
    Distribute(fa, |b| / channels, mid);
    var whole := Downmix(ops, a + b, channels, mid);
    var x, y := Downmix(ops, a, channels, mid), Downmix(ops, b, channels, mid);
    forall j | 0 <= j < |whole|
      ensures whole[j] == (x + y)[j]
    {
      DownmixSample(ops, a, b, fa, channels, mid, j);
    }
  }

  /** A partial frame at the end of a piece is kept for the next one: the samples go
      to the filter as they come. */
  predicate KeepsPartial(cfg: Config, rate: int, channels: int) { rate != cfg.sampleRate && channels <= cfg.channels }

  /** Mixing distributes over a division at a frame boundary, and over any division
      where partial frames are kept. */
  lemma MixConcat(ops: FloatOps, p: Plan, a: seq<F32>, b: seq<F32>)
    requires p.Valid() && (|a| % p.inChannels == 0 || (p.Filtered() && p.inChannels == p.mid))
    ensures Mix(ops, p, a + b) == Mix(ops, p, a) + Mix(ops, p, b)
  {
    hide Downmix;
    if p.inChannels != p.mid {
      DownmixConcat(ops, a, b, p.inChannels, p.mid);
    } else if !p.Filtered() {
      var fa := |a| / p.mid;
      DivMod(|a|, p.mid);
      DivAddMultiple(fa, |b|, p.mid);
      assert WholePrefix(a, p.mid) == a;
      assert WholePrefix(a + b, p.mid) == a + WholePrefix(b, p.mid);
    }
  }

  /** Pieces of one stream: those that are not empty have one shape. */
  ghost predicate Uniform(pieces: seq<PCM>, rate: int, channels: int) {
    forall i :: 0 <= i < |pieces| && !pieces[i].IsEmpty() ==>
      pieces[i].Valid() && pieces[i].sampleRate == rate && pieces[i].channels == channels
  }

  /** The samples of all pieces in order. */
  function Signal(pieces: seq<PCM>): seq<F32> {
    if pieces == [] then [] else Signal(pieces[..|pieces| - 1]) + pieces[|pieces| - 1].Float()
  }

  /** A piece may begin there: between two frames, or in the partial frame that ends the
      stream. */
  predicate GoodCut(start: nat, total: nat, channels: int)
    requires channels > 0
  {
    start % channels == 0 || start / channels == total / channels
  }

  /** No piece begins inside a whole frame, unless partial frames are kept. */
  ghost predicate WellCut(cfg: Config, pieces: seq<PCM>, rate: int, channels: int)
    requires channels > 0
  {
    KeepsPartial(cfg, rate, channels) ||
    forall i :: 0 <= i < |pieces| ==> GoodCut(|Signal(pieces[..i])|, |Signal(pieces)|, channels)
  }

  lemma {:induction false} SignalGrows(pieces: seq<PCM>, i: nat)
    requires i <= |pieces|
    ensures |Signal(pieces[..i])| <= |Signal(pieces)|
    decreases |pieces|
  {
    if i < |pieces| {
      SignalGrows(pieces[..|pieces| - 1], i);
      assert pieces[..|pieces| - 1][..i] == pieces[..i];
    } else {
      assert pieces[..i] == pieces;
    }
  }

  /** A good cut of a stream is one of every part of it that reaches it. */
  lemma GoodCutWithin(start: nat, part: nat, total: nat, channels: int)
    requires channels > 0 && start <= part <= total && GoodCut(start, total, channels)
    ensures GoodCut(start, part, channels)
  {
    DivMonotone(start, part, channels);
    DivMonotone(part, total, channels);
  }

  lemma WellCutInit(cfg: Config, pieces: seq<PCM>, rate: int, channels: int)
    requires channels > 0 && pieces != [] && WellCut(cfg, pieces, rate, channels)
    ensures WellCut(cfg, pieces[..|pieces| - 1], rate, channels)
    ensures KeepsPartial(cfg, rate, channels) || GoodCut(|Signal(pieces[..|pieces| - 1])|, |Signal(pieces)|, channels)
  {
    hide Signal, GoodCut;
    var init := pieces[..|pieces| - 1];
    if !KeepsPartial(cfg, rate, channels) {
      forall i | 0 <= i < |init| ensures GoodCut(|Signal(init[..i])|, |Signal(init)|, channels) {
        assert init[..i] == pieces[..i];
        SignalGrows(init, i);
        SignalGrows(pieces, |init|);
        GoodCutWithin(|Signal(init[..i])|, |Signal(init)|, |Signal(pieces)|, channels);
      }
    }
  }

  /** Less than a frame contributes nothing, unless partial frames are kept. */
  lemma MixShort(ops: FloatOps, p: Plan, s: seq<F32>)
    requires p.Valid() && |s| < p.inChannels && !(p.Filtered() && p.inChannels == p.mid)
    ensures Mix(ops, p, s) == []
  {
    DivUnique(|s|, p.inChannels, 0, |s|);
    MulZero(p.mid);
  }

  /** Mixing distributes over a division in the partial frame that ends the stream. */
  lemma MixTail(ops: FloatOps, p: Plan, a: seq<F32>, b: seq<F32>)
    requires p.Valid() && !(p.Filtered() && p.inChannels == p.mid)
    requires |a| % p.inChannels != 0 && |a| / p.inChannels == |a + b| / p.inChannels
    ensures Mix(ops, p, a + b) == Mix(ops, p, a) + Mix(ops, p, b)
  {
    hide Mix;
    var ch := p.inChannels;
    DivMod(|a|, ch);
    DivMod(|a + b|, ch);
    var whole, rest := WholePrefix(a, ch), a[|a| - |a| % ch..];
    assert a == whole + rest && a + b == whole + (rest + b);
    DivUnique(|whole|, ch, |a| / ch, 0);
    MixConcat(ops, p, whole, rest);
    MixConcat(ops, p, whole, rest + b);
    MixShort(ops, p, rest);
    MixShort(ops, p, rest + b);
    MixShort(ops, p, b);
  }

  lemma MixGood(ops: FloatOps, cfg: Config, rate: int, channels: int, a: seq<F32>, b: seq<F32>)
    requires cfg.Valid() && rate > 0 && channels > 0
    requires KeepsPartial(cfg, rate, channels) || GoodCut(|a|, |a + b|, channels)
    ensures var p := MakePlan(cfg, rate, channels); Mix(ops, p, a + b) == Mix(ops, p, a) + Mix(ops, p, b)
  {
    hide Mix;
    var p := MakePlan(cfg, rate, channels);
    if |a| % channels == 0 || (p.Filtered() && p.inChannels == p.mid) {
      MixConcat(ops, p, a, b);
    } else {
      MixTail(ops, p, a, b);
    }
  }

  /** A stream of one shape is one segment, whose contents depend on the samples
      alone and not on how they were divided. */
  lemma {:induction false} UniformSegments(ops: FloatOps, cfg: Config, pieces: seq<PCM>, rate: int, channels: int)
    requires cfg.Valid() && rate > 0 && channels > 0 && Uniform(pieces, rate, channels)
    requires WellCut(cfg, pieces, rate, channels)
    ensures Segments(ops, cfg, pieces) ==
      if Signal(pieces) == [] then []
      else [Streaming(rate, channels, Mix(ops, MakePlan(cfg, rate, channels), Signal(pieces)))]
    decreases |pieces|
  {
    hide Mix, WellCut, MakePlan, GoodCut;
    if pieces != [] {
      var p := MakePlan(cfg, rate, channels);
      var init, last := pieces[..|pieces| - 1], pieces[|pieces| - 1];
      WellCutInit(cfg, pieces, rate, channels);
      UniformSegments(ops, cfg, init, rate, channels);
      assert |last.Float()| == last.NumSamples();
      if last.IsEmpty() {
        assert Signal(pieces) == Signal(init);
      } else if Signal(init) == [] {
        assert Signal(pieces) == last.Float();
        assert [] + Mix(ops, p, last.Float()) == Mix(ops, p, last.Float());
      } else {
        MixGood(ops, cfg, rate, channels, Signal(init), last.Float());
      }
    }
  }

  /** Split invariance: any two divisions of the same samples give the same
      samples, and with a fixed frame size the same buffers and timestamps. */
  lemma SplitInvariance(ops: FloatOps, cfg: Config, a: seq<PCM>, b: seq<PCM>, rate: int, channels: int)
    requires cfg.Valid() && rate > 0 && channels > 0
    requires Uniform(a, rate, channels) && Uniform(b, rate, channels) && Signal(a) == Signal(b)
    requires WellCut(cfg, a, rate, channels) && WellCut(cfg, b, rate, channels)
    ensures Joined(cfg, RunAll(ops, cfg, a)) == Joined(cfg, RunAll(ops, cfg, b))
    ensures cfg.frameSize > 0 ==> RunAll(ops, cfg, a) == RunAll(ops, cfg, b)
  {
    hide Joined, Audio, Segments, AllOutput, AllBuffers, RunAll, Mix;
    UniformSegments(ops, cfg, a, rate, channels);
    UniformSegments(ops, cfg, b, rate, channels);
    SamplesOfRun(ops, cfg, a);
    SamplesOfRun(ops, cfg, b);
    if cfg.frameSize > 0 {
      BuffersOfRun(ops, cfg, a);
      BuffersOfRun(ops, cfg, b);
    }
  }

  // ---- lengths ----

  /** Feeding n frames and flushing yields ceil(n * outRate / inRate) frames;
      before the flush the filter still holds back its own reach. */
  lemma LengthClosedForm(cfg: Config, inRate: int, inChannels: int, n: nat)
    requires cfg.Valid() && inRate > 0 && inChannels > 0
    ensures var p := MakePlan(cfg, inRate, inChannels); var h := HalfTaps(inRate, cfg.sampleRate);
      && p.TotalFrames(n) == CeilDiv(n * cfg.sampleRate, inRate)
      && p.ReadyFrames(n) == (if inRate == cfg.sampleRate then n
                              else if n <= h then 0 else CeilDiv((n - h) * cfg.sampleRate, inRate))
  {
    var p := MakePlan(cfg, inRate, inChannels);
    if inRate == cfg.sampleRate {
      CeilExact(n, inRate);
    } else {
      if n > 0 {
        OutputsClosedForm(p, n);
      } else {
        CeilExact(0, inRate);
      }
      if n > p.halfTaps {
        OutputsClosedForm(p, n - p.halfTaps);
      }
    }
  }

  lemma CeilExact(n: nat, d: nat)
    requires d > 0
    ensures CeilDiv(n * d, d) == n
  {
    DivAddMultiple(n, d - 1, d);
    DivUnique(d - 1, d, 0, d - 1);
  }

  lemma OutputsClosedForm(p: Plan, k: int)
    requires p.Valid() && p == MakePlan(p.cfg, p.inRate, p.inChannels) && k > 0
    ensures p.Outputs(k) == CeilDiv(k * p.cfg.sampleRate, p.inRate)
  {
    var g := Gcd(p.inRate, p.cfg.sampleRate);
    StepExact(p.inRate, p.cfg.sampleRate);
    CeilDivScale(k * p.den, p.num, g);
    MulAssoc(k, p.den, g);
  }

  lemma SegmentLength(ops: FloatOps, cfg: Config, rate: int, channels: int, src: seq<F32>)
    requires cfg.Valid() && rate > 0 && channels > 0
    ensures var p := MakePlan(cfg, rate, channels);
      |AllOutput(ops, cfg, [Streaming(rate, channels, Mix(ops, p, src))])|
      == CeilDiv(|src| / channels * cfg.sampleRate, rate) * cfg.channels
  {
    hide Output, Mix, MakePlan, CeilDiv;
    var p := MakePlan(cfg, rate, channels);
    var m := Mix(ops, p, src);
    var n := |src| / channels;
    MixFrames(ops, p, src);
    LengthClosedForm(cfg, rate, channels, n);
    DivLess(|src|, channels, 0);
    var total := p.TotalFrames(n);
    OutputLength(ops, p, m, total);
    SamplesIs(total, cfg.channels);
    var segs := [Streaming(rate, channels, m)];
    assert segs[..0] == [];
    assert AllOutput(ops, cfg, segs) == Output(ops, p, m, total);
  }

  /** The length of a whole run over one stream. */
  lemma RunLength(ops: FloatOps, cfg: Config, pieces: seq<PCM>, rate: int, channels: int)
    requires cfg.Valid() && rate > 0 && channels > 0 && Uniform(pieces, rate, channels)
    requires WellCut(cfg, pieces, rate, channels)
    ensures Joined(cfg, RunAll(ops, cfg, pieces)).NumSamples()
         == CeilDiv(|Signal(pieces)| / channels * cfg.sampleRate, rate) * cfg.channels
  {
    hide Signal, RunAll, Segments, Mix, MakePlan, WellCut, CeilDiv, AllOutput;
    UniformSegments(ops, cfg, pieces, rate, channels);
    SamplesOfRun(ops, cfg, pieces);
    SegmentLength(ops, cfg, rate, channels, Signal(pieces));
    if Signal(pieces) == [] {
      DivUnique(0, channels, 0, 0);
      CeilExact(0, rate);
      assert |AllOutput(ops, cfg, [])| == 0 by { NoOutput(ops, cfg); }
    }
  }

  lemma NoOutput(ops: FloatOps, cfg: Config)
    requires cfg.Valid()
    ensures AllOutput(ops, cfg, []) == []
  {
  }

  lemma MixFrames(ops: FloatOps, p: Plan, src: seq<F32>)
    requires p.Valid()
    ensures p.Frames(Mix(ops, p, src)) == |src| / p.inChannels
  {
    DivMod(|src|, p.inChannels);
    DivUnique(|src| / p.inChannels * p.mid, p.mid, |src| / p.inChannels, 0);
  }

  // ---- buffers of a fixed size ----

  /** Cutting, told span by span. */
  lemma {:induction false} CutFixed(frameSize: nat, start: nat, total: nat, final: bool, i: nat)
    requires frameSize > 0 && start <= total
    ensures var spans := Cut(frameSize, start, total, final);
      && |spans| == (if final then CeilDiv(total - start, frameSize) else (total - start) / frameSize)
      && (i < |spans| ==>
            spans[i].start == start + i * frameSize
            && spans[i].n == Min(frameSize, total - start - i * frameSize))
    decreases total - start
  {
    var left := total - start;
    MulLe(0, i, frameSize);
    if frameSize <= left {
      DivAddMultiple(1, left - frameSize, frameSize);
      DivAddMultiple(1, left - frameSize + frameSize - 1, frameSize);
      CutFixed(frameSize, start + frameSize, total, final, if i > 0 then i - 1 else 0);
      if i > 0 { MulSucc(i - 1, frameSize); }
    } else {
      DivUnique(left, frameSize, 0, left);
      if left == 0 {
        DivUnique(frameSize - 1, frameSize, 0, frameSize - 1);
      } else {
        DivUnique(left + frameSize - 1, frameSize, 1, left - 1);
        assert Cut(frameSize, start + left, total, final) == [];
      }
    }
  }

  /** Without a frame size, whatever is there is one span. */
  lemma CutWhole(start: nat, total: nat, final: bool)
    requires start <= total
    ensures Cut(0, start, total, final) == if start == total then [] else [Span(start, total - start)]
  {
    if start < total { assert Cut(0, total, total, final) == []; }
  }

  lemma BufferShape(cfg: Config, o: seq<F32>, start: nat, n: nat)
    requires cfg.Valid() && Samples(start + n, cfg.channels) <= |o|
    ensures var b := Buffer(cfg, o, start, n);
      && b.format == cfg.format && b.sampleRate == cfg.sampleRate && b.channels == cfg.channels
      && b.pts == Pts(start, cfg.sampleRate) && b.NumSamples() == n * cfg.channels
  {
    SamplesAdd(start, n, cfg.channels);
    SamplesIs(n, cfg.channels);
  }

  /** With a frame size, buffer i of a run over one stream holds exactly frameSize frames,
      the last one what is left, is timed at frame i * frameSize, and there are as many
      buffers as it takes. */
  lemma FixedBuffers(ops: FloatOps, cfg: Config, pieces: seq<PCM>, rate: int, channels: int, i: nat)
    requires cfg.Valid() && cfg.frameSize > 0 && rate > 0 && channels > 0 && Uniform(pieces, rate, channels)
    requires WellCut(cfg, pieces, rate, channels)
    ensures var out, size := RunAll(ops, cfg, pieces), cfg.frameSize;
      var total := CeilDiv(|Signal(pieces)| / channels * cfg.sampleRate, rate);
      && |out| == CeilDiv(total, size)
      && (i < |out| ==>
            && out[i].format == cfg.format && out[i].sampleRate == cfg.sampleRate && out[i].channels == cfg.channels
            && out[i].NumSamples() == Min(size, total - i * size) * cfg.channels
            && (i * size * 1_000_000_000 < TWO63 && cfg.sampleRate < TWO63 ==>
                  out[i].pts == i * size * 1_000_000_000 / cfg.sampleRate))
  {
    hide Signal, RunAll, Segments, Mix, MakePlan, WellCut, CeilDiv, Output, Cut, Buffer, Pts;
    var size := cfg.frameSize;
    UniformSegments(ops, cfg, pieces, rate, channels);
    BuffersOfRun(ops, cfg, pieces);
    var n := |Signal(pieces)| / channels;
    DivLess(|Signal(pieces)|, channels, 0);
    LengthClosedForm(cfg, rate, channels, n);
    if Signal(pieces) == [] {
      DivUnique(0, channels, 0, 0);
      CeilExact(0, rate);
      CeilExact(0, size);
    } else {
      var p, m := MakePlan(cfg, rate, channels), Mix(ops, MakePlan(cfg, rate, channels), Signal(pieces));
      var total := p.TotalFrames(n);
      MixFrames(ops, p, Signal(pieces));
      OneSegmentBuffers(ops, cfg, Streaming(rate, channels, m));
      CutFixed(size, 0, total, true, i);
      var o := Output(ops, p, m, total);
      OutputLength(ops, p, m, total);
      var spans := Cut(size, 0, total, true);
      if i < |spans| {
        SamplesMonotone(spans[i].start + spans[i].n, total, cfg.channels);
        BufferShape(cfg, o, spans[i].start, spans[i].n);
        if cfg.sampleRate < TWO63 { PtsExactIff(i * size, cfg.sampleRate); }
      }
    }
  }

  lemma OneSegmentBuffers(ops: FloatOps, cfg: Config, st: Stream)
    requires cfg.Valid() && st.Streaming? && st.Valid()
    ensures var p := MakePlan(cfg, st.inRate, st.inChannels);
      var total := p.TotalFrames(p.Frames(st.fed));
      AllBuffers(ops, cfg, [st]) == Render(cfg, Output(ops, p, st.fed, total), Cut(cfg.frameSize, 0, total, true))
  {
    assert [st][..0] == [];
  }

  // ---- matching parameters ----

  /** With matching rate and channel count the resampler passes samples through. */
  lemma {:induction false} PassThrough(ops: FloatOps, p: Plan, m: seq<F32>, n: nat)
    requires p.Valid() && !p.Filtered() && p.mid == p.cfg.channels && Samples(n, p.mid) <= |m|
    ensures Output(ops, p, m, n) == m[..Samples(n, p.mid)]
  {
    if n > 0 {
      PassThrough(ops, p, m, n - 1);
      SamplesIs(n - 1, p.mid);
      var f := OutFrame(ops, p, m, n - 1);
      forall c | 0 <= c < p.mid ensures f[c] == m[Samples(n - 1, p.mid) + c] {
        DivUnique(c, p.mid, 0, c);
      }
      assert f == m[Samples(n - 1, p.mid)..Samples(n, p.mid)];
    }
  }

  /** A whole run over a stream that already has the target rate and channel
      count is a format conversion of its whole frames. */
  lemma MatchingRun(ops: FloatOps, cfg: Config, pieces: seq<PCM>)
    requires cfg.Valid() && Uniform(pieces, cfg.sampleRate, cfg.channels)
    requires WellCut(cfg, pieces, cfg.sampleRate, cfg.channels)
    ensures Joined(cfg, RunAll(ops, cfg, pieces)) == Audio(cfg, WholePrefix(Signal(pieces), cfg.channels))
    ensures |Signal(pieces)| % cfg.channels == 0 ==> WholePrefix(Signal(pieces), cfg.channels) == Signal(pieces)
  {
    hide RunAll, Segments, Output, Joined, Audio, WellCut;
    SamplesOfRun(ops, cfg, pieces);
    UniformSegments(ops, cfg, pieces, cfg.sampleRate, cfg.channels);
    var segs := Segments(ops, cfg, pieces);
    if Signal(pieces) != [] {
      var p := MakePlan(cfg, cfg.sampleRate, cfg.channels);
      var m := Mix(ops, p, Signal(pieces));
      assert m == WholePrefix(Signal(pieces), cfg.channels);
      WholeFrames(Signal(pieces), p.mid);
      MixFrames(ops, p, Signal(pieces));
      var n := |Signal(pieces)| / p.mid;
      SamplesIs(n, p.mid);
      PassThrough(ops, p, m, n);
      assert segs[..0] == [];
      assert AllOutput(ops, cfg, segs) == m;
    } else {
      assert WholePrefix(Signal(pieces), cfg.channels) == [];
    }
  }

  // ---- timestamps ----

  /** A buffer's timestamp is its exact position until the frame count times 10^9
      no longer fits an int64, and never again after. */
  lemma PtsExactIff(emitted: nat, rate: int)
    requires 0 < rate < TWO63
    ensures Pts(emitted, rate) == emitted * 1_000_000_000 / rate <==> emitted * 1_000_000_000 < TWO63
  {
    WrappedQuotient(emitted * 1_000_000_000, rate);
  }

  lemma WrappedQuotient(x: nat, rate: int)
    requires 0 < rate < TWO63
    ensures Quo(Wrap64(x), rate) == x / rate <==> x < TWO63
  {
    var w := Wrap64(x);
    if x >= TWO63 {
      assert w + rate <= x;
      if w < 0 {
        DivLess(x, rate, 1);
        DivLess(-w, rate, 0);
      } else {
        DivAddMultiple(1, w, rate);
        DivLess(w + rate, rate, x / rate + 1);
        DivMod(x, rate);
        MulSucc(x / rate, rate);
        DivLess(w + rate, rate, w / rate + 1);
        DivLess(x, rate, w / rate + 1);
      }
    }
  }

  /** 53.4 hours into a 48 kHz stream timestamps jump back below zero. */
  lemma PtsWraps()
    ensures Pts(9_223_372_037, 48000) < 0
  {
    assert Wrap64(9_223_372_037 * 1_000_000_000) == 9_223_372_037_000_000_000 - TWO64;
  }
}
