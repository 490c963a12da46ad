/** The incremental WAV writer (audio/wavwriter.go): a placeholder header, data
    appended as it comes, and sizes patched in place on Close. The finished file
    is proved to be what the one-shot writer produces. */
module WavWriter {
  import opened Bits
  import opened Float32
  import opened Pcm
  import opened Arith
  import opened ResampleSpec
  import opened ResampleLaws
  import opened Resample
  import opened Wav

  // ---- a seekable file ----

  /** Writing at an offset: past the end the gap reads as zeros. */
  function Overwrite(f: seq<byte>, off: nat, b: seq<byte>): seq<byte> {
    (if off <= |f| then f[..off] else f + seq(off - |f|, _ => 0))
    + b
    + (if off + |b| <= |f| then f[off + |b|..] else [])
  }

  lemma OverwriteEnd(f: seq<byte>, b: seq<byte>)
    ensures Overwrite(f, |f|, b) == f + b
  {
  }

  lemma OverwriteMiddle(a: seq<byte>, was: seq<byte>, now: seq<byte>, rest: seq<byte>)
    requires |was| == |now|
    ensures Overwrite(a + was + rest, |a|, now) == a + now + rest
  {
    var f := a + was + rest;
    assert f[..|a|] == a && f[|a| + |now|..] == rest;
  }

  class File {
    var bytes: seq<byte>
    var off: nat

    constructor ()
      ensures bytes == [] && off == 0
    {
      bytes, off := [], 0;
    }

    method Write(b: seq<byte>)
      modifies this
      ensures bytes == Overwrite(old(bytes), old(off), b) && off == old(off) + |b|
    {
      bytes := Overwrite(bytes, off, b);
      off := off + |b|;
    }

    method SeekStart(n: nat)
      modifies this`off
      ensures off == n
    {
      off := n;
    }

    method SeekEnd()
      modifies this`off
      ensures off == |bytes|
    {
      off := |bytes|;
    }
  }

  // ---- file layout ----

  const RIFF_SIZE_AT := 4
  const FACT_VALUE_AT := 44
  const DATA_SIZE_S16_AT := 40
  const DATA_SIZE_F32_AT := 52

  function FmtChunk(cfg: Config): (b: seq<byte>)
    ensures |b| == 24
  {
    FMT + LE32(16) + FmtPayload(cfg.format, cfg.sampleRate, cfg.channels)
  }

  /** The "fact" chunk of a float file. */
  function FactChunk(cfg: Config, frames: uint32): (b: seq<byte>)
    ensures |b| == if cfg.format.FormatF32? then 12 else 0
  {
    if cfg.format.FormatF32? then FACT + LE32(4) + LE32(frames) else []
  }

  /** A file with the three numbers that Close fills in. */
  function Layout(cfg: Config, riff: uint32, frames: uint32, size: uint32, data: seq<byte>): seq<byte> {
    RIFF + LE32(riff) + (WAVE + FmtChunk(cfg)) + FactChunk(cfg, frames) + DATA + LE32(size) + data
  }

  function HeaderBytes(cfg: Config): nat { if cfg.format.FormatF32? then 56 else 44 }

  predicate Describes(cfg: Config, p: PCM) {
    p.format == cfg.format && p.sampleRate == cfg.sampleRate && p.channels == cfg.channels
  }

  lemma JoinedDescribes(cfg: Config, bufs: seq<PCM>)
    ensures Describes(cfg, Joined(cfg, bufs))
  {
  }

  lemma EncodeEven(p: PCM)
    ensures |Encode(p)| % 2 == 0
  {
    var n: int := |Encode(p)|;
    if p.format.FormatF32? {
      Twice(n, 2 * |p.f32|);
    } else {
      Twice(n, |p.s16|);
    }
  }

  lemma Twice(n: int, k: int)
    requires n == 2 * k
    ensures n % 2 == 0
  {
  }

  /** WriteWAV's file in terms of its layout. */
  lemma WavLayout(cfg: Config, p: PCM)
    requires cfg.Valid() && Describes(cfg, p)
    ensures var n := |Encode(p)|;
            WavBytes(p) == Layout(cfg, Trunc32(HeaderBytes(cfg) - 8 + n), Trunc32(Len(p)), Trunc32(n), Encode(p))
  {
    hide LE32, FmtPayload, Encode;
    EncodeEven(p);
    var f := [Chunk(FMT, FmtPayload(p.format, p.sampleRate, p.channels))];
    var fact := if p.format.FormatF32? then [Chunk(FACT, LE32(Trunc32(Len(p))))] else [];
    var d := [Chunk(DATA, Encode(p))];
    SerialiseConcat(f + fact, d);
    SerialiseConcat(f, fact);
    SerialiseOne(f[0]);
    SerialiseOne(d[0]);
    if p.format.FormatF32? { SerialiseOne(fact[0]); }
    assert Serialise(f) == FmtChunk(cfg);
    assert Serialise(fact) == FactChunk(cfg, Trunc32(Len(p)));
    assert Serialise(d) == DATA + LE32(Trunc32(|Encode(p)|)) + Encode(p);
  }

  lemma PatchRiff(cfg: Config, riff: uint32, riff': uint32, frames: uint32, size: uint32, data: seq<byte>)
    ensures Overwrite(Layout(cfg, riff, frames, size, data), RIFF_SIZE_AT, LE32(riff'))
         == Layout(cfg, riff', frames, size, data)
  {
    hide LE32, FmtChunk, FactChunk, Overwrite;
    var rest := (WAVE + FmtChunk(cfg)) + FactChunk(cfg, frames) + DATA + LE32(size) + data;
    assert Layout(cfg, riff, frames, size, data) == RIFF + LE32(riff) + rest;
    assert Layout(cfg, riff', frames, size, data) == RIFF + LE32(riff') + rest;
    OverwriteMiddle(RIFF, LE32(riff), LE32(riff'), rest);
  }

  lemma PatchSize(cfg: Config, riff: uint32, frames: uint32, size: uint32, size': uint32, data: seq<byte>)
    requires !cfg.format.FormatOther?
    ensures Overwrite(Layout(cfg, riff, frames, size, data),
                      if cfg.format.FormatF32? then DATA_SIZE_F32_AT else DATA_SIZE_S16_AT, LE32(size'))
         == Layout(cfg, riff, frames, size', data)
  {
    hide LE32, FmtChunk, FactChunk, Overwrite;
    var a := RIFF + LE32(riff) + (WAVE + FmtChunk(cfg)) + FactChunk(cfg, frames) + DATA;
    assert |a| == if cfg.format.FormatF32? then DATA_SIZE_F32_AT else DATA_SIZE_S16_AT;
    OverwriteMiddle(a, LE32(size), LE32(size'), data);
  }

  lemma PatchFact(cfg: Config, riff: uint32, frames: uint32, frames': uint32, size: uint32, data: seq<byte>)
    requires cfg.format.FormatF32?
    ensures Overwrite(Layout(cfg, riff, frames, size, data), FACT_VALUE_AT, LE32(frames'))
         == Layout(cfg, riff, frames', size, data)
  {
    hide LE32, FmtChunk, Overwrite;
    var a := RIFF + LE32(riff) + (WAVE + FmtChunk(cfg)) + FACT + LE32(4);
    var rest := DATA + LE32(size) + data;
    assert Layout(cfg, riff, frames, size, data) == a + LE32(frames) + rest;
    assert Layout(cfg, riff, frames', size, data) == a + LE32(frames') + rest;
    OverwriteMiddle(a, LE32(frames), LE32(frames'), rest);
  }

  // ---- the data of a run of buffers ----

  ghost predicate AllOf(cfg: Config, bufs: seq<PCM>) {
    forall i :: 0 <= i < |bufs| ==> bufs[i].format == cfg.format
  }

  lemma EncodeJoinConcat(cfg: Config, a: seq<PCM>, b: seq<PCM>)
    ensures Encode(Joined(cfg, a + b)) == Encode(Joined(cfg, a)) + Encode(Joined(cfg, b))
  {
    JoinConcat(a, b);
    if cfg.format.FormatF32? {
      EncodeF32Concat(JoinF32(a), JoinF32(b));
    } else {
      EncodeS16Concat(JoinS16(a), JoinS16(b));
    }
  }

  lemma EncodeJoinOne(cfg: Config, p: PCM)
    requires p.format == cfg.format
    ensures Encode(Joined(cfg, [p])) == Encode(p)
  {
    JoinOne(p);
  }

  lemma RenderOf(cfg: Config, o: seq<F32>, spans: seq<Span>)
    requires cfg.Valid()
    ensures AllOf(cfg, Render(cfg, o, spans))
  {
  }

  lemma FlushOf(ops: FloatOps, cfg: Config, st: Stream)
    requires cfg.Valid() && st.Valid()
    ensures AllOf(cfg, FlushOut(ops, cfg, st))
  {
    hide Render, Output, Cut, Emitted, TotalCount, MakePlan;
    if st.Streaming? {
      var p := MakePlan(cfg, st.inRate, st.inChannels);
      ReadyWithinTotal(p, st.fed);
      var total := TotalCount(p, st.fed);
      RenderOf(cfg, Output(ops, p, st.fed, total), Cut(cfg.frameSize, Emitted(p, st.fed), total, true));
    }
  }

  lemma WriteOf(ops: FloatOps, cfg: Config, st: Stream, pcm: PCM)
    requires cfg.Valid() && st.Valid()
    ensures AllOf(cfg, Accepted(WriteStep(ops, cfg, st, pcm).1))
  {
    hide Render, Output, Cut, Emitted, ReadyCount, MakePlan, FlushOut, Contribution;
    FlushOf(ops, cfg, st);
    if Usable(pcm) {
      var p := MakePlan(cfg, pcm.sampleRate, pcm.channels);
      var before := if st.Matches(pcm) then st.fed else [];
      var after := Extend(ops, cfg, st, pcm).fed;
      ReadyGrows(p, before, Contribution(ops, p, pcm));
      var ready := ReadyCount(p, after);
      RenderOf(cfg, Output(ops, p, after, ready), Cut(cfg.frameSize, Emitted(p, before), ready, false));
    }
  }

  // ---- the writer ----

  class WAVWriter {
    const file: File
    const resampler: StreamResampler
    const cfg: Config
    var written: nat
    var closed: bool

    /** Every buffer handed to emit. */
    ghost var emitted: seq<PCM>

    ghost function Audio(): PCM
      reads this
    {
      Joined(cfg, emitted)
    }

    ghost predicate Valid()
      reads this, file, resampler
    {
      && resampler.Valid() && resampler.cfg == cfg && cfg.Valid() && cfg.frameSize == 0
      && (if closed then file.bytes == WavBytes(Audio())
          else
            && file.off == |file.bytes|
            && file.bytes == WavBytes(Empty(cfg.format, cfg.sampleRate, cfg.channels)) + Encode(Audio())
            && written == |Encode(Audio())|)
    }

    /** NewWAVWriter on an empty file. */
    constructor (ops: FloatOps, file: File, cfg: Config)
      requires cfg.Valid() && cfg.frameSize == 0 && file.bytes == [] && file.off == 0
      modifies file
      ensures Valid() && !closed && emitted == [] && resampler.View() == Fresh
      ensures this.file == file && this.cfg == cfg && resampler.ops == ops && fresh(resampler)
    {
      this.file, this.cfg := file, cfg;
      resampler := new StreamResampler(ops, cfg);
      written, closed, emitted := 0, false, [];
      new;
      var header := WriteWAV(Empty(cfg.format, cfg.sampleRate, cfg.channels));
      OverwriteEnd(file.bytes, header.value);
      file.Write(header.value);
    }

    /** emit: append the bytes of every buffer. */
    method Emit(frames: seq<PCM>)
      requires Valid() && !closed && AllOf(cfg, frames)
      modifies this`written, this`emitted, file
      ensures Valid() && emitted == old(emitted) + frames
    {
      hide WavBytes, Encode, Joined, Overwrite;
      ghost var before := emitted;
      for i := 0 to |frames|
        invariant Valid() && emitted == before + frames[..i]
      {
        var f := frames[i];
        assert frames[..i + 1] == frames[..i] + [f];
        EncodeJoinConcat(cfg, emitted, [f]);
        EncodeJoinOne(cfg, f);
        EncodeSize(cfg, f);
        if f.IsEmpty() {
          assert Encode(f) == [];
        } else {
          var b := Bytes(f);
          OverwriteEnd(file.bytes, b);
          file.Write(b);
          written := written + f.NumSamples() * cfg.format.BytesPerSample();
        }
        emitted := emitted + [f];
      }
      assert frames[..|frames|] == frames;
    }

    /** WAVWriter.Write. */
    method Write(pcm: PCM) returns (r: Result<()>)
      requires Valid()
      modifies this`written, this`emitted, file, resampler
      ensures Valid() && closed == old(closed)
      ensures old(closed) ==>
              r == Err(WriterClosed) && emitted == old(emitted) && resampler.View() == old(resampler.View())
      ensures !old(closed) ==>
        && (resampler.View(), r.Ok?) == (WriteStep(resampler.ops, cfg, old(resampler.View()), pcm).0,
                                        WriteStep(resampler.ops, cfg, old(resampler.View()), pcm).1.Ok?)
        && emitted == old(emitted) + Accepted(WriteStep(resampler.ops, cfg, old(resampler.View()), pcm).1)
    {
      hide WavBytes, Encode, Joined, WriteStep;
      if closed {
        return Err(WriterClosed);
      }
      WriteOf(resampler.ops, cfg, resampler.View(), pcm);
      var frames := resampler.Write(pcm);
      if frames.Err? {
        assert emitted + [] == emitted;
        return Err(frames.error);
      }
      Emit(frames.value);
      r := Ok(());
    }

    /** WAVWriter.Close: a second call does nothing. */
    method Close()
      requires Valid()
      modifies this, file, resampler
      ensures Valid() && closed
      ensures old(closed) ==> emitted == old(emitted) && file.bytes == old(file.bytes)
      ensures !old(closed) ==> emitted == old(emitted) + FlushOut(resampler.ops, cfg, old(resampler.View()))
    {
      hide WavBytes, Encode, Joined, FlushOut;
      if closed {
        return;
      }
      FlushOf(resampler.ops, cfg, resampler.View());
      var tail := resampler.Flush();
      Emit(tail);
      PatchSizes();
      closed := true;
    }

    /** patchSizes. */
    method PatchSizes()
      requires Valid() && !closed
      modifies file
      ensures file.bytes == WavBytes(Audio())
    {
      hide Joined, Layout, Overwrite, LE32, Encode, WavBytes;
      ghost var data := Encode(Audio());
      ghost var empty := Empty(cfg.format, cfg.sampleRate, cfg.channels);
      JoinedDescribes(cfg, emitted);
      WavLayout(cfg, Audio());
      WavLayout(cfg, empty);
      EmptyEncodes(empty);
      LayoutAppend(cfg, data);
      if written % 2 == 1 {
        file.Write([0]);
      }
      EncodeEven(Audio());
      var dataSizeAt, headerBytes := DATA_SIZE_S16_AT, 44;
      if cfg.format == FormatF32 {
        dataSizeAt, headerBytes := DATA_SIZE_F32_AT, 56;
      }
      var padded := written + written % 2;
      ghost var riff := Trunc32(HeaderBytes(cfg) - 8);

      PatchRiff(cfg, riff, Trunc32(headerBytes - 8 + padded), 0, 0, data);
      Patch(RIFF_SIZE_AT, Trunc32(headerBytes - 8 + padded));
      PatchSize(cfg, Trunc32(headerBytes - 8 + padded), 0, 0, Trunc32(written), data);
      Patch(dataSizeAt, Trunc32(written));
      if cfg.format == FormatF32 {
        FramesWritten(cfg, Audio());
        var frames := written / (cfg.format.BytesPerSample() * cfg.channels);
        PatchFact(cfg, Trunc32(headerBytes - 8 + padded), 0, Trunc32(frames), Trunc32(written), data);
        Patch(FACT_VALUE_AT, Trunc32(frames));
      } else {
        NoFact(cfg, Trunc32(headerBytes - 8 + padded), Trunc32(written), Trunc32(Len(Audio())), data);
      }
      file.SeekEnd();
    }

    /** patch. */
    method Patch(offset: nat, value: uint32)
      modifies file
      ensures file.bytes == Overwrite(old(file.bytes), offset, LE32(value))
    {
      var buf := LE32(value);
      file.SeekStart(offset);
      file.Write(buf);
    }
  }

  lemma EncodeSize(cfg: Config, f: PCM)
    requires cfg.Valid() && f.format == cfg.format
    ensures |Encode(f)| == f.NumSamples() * cfg.format.BytesPerSample()
  {
  }

  lemma EmptyEncodes(p: PCM)
    requires p.s16 == [] && p.f32 == []
    ensures Encode(p) == [] && (p.channels > 0 ==> Len(p) == 0)
  {
  }

  lemma LayoutAppend(cfg: Config, data: seq<byte>)
    ensures var size := Trunc32(HeaderBytes(cfg) - 8);
            Layout(cfg, size, 0, 0, []) + data == Layout(cfg, size, 0, 0, data)
  {
    hide LE32, FmtChunk, FactChunk;
  }

  lemma NoFact(cfg: Config, riff: uint32, size: uint32, frames: uint32, data: seq<byte>)
    requires !cfg.format.FormatF32?
    ensures Layout(cfg, riff, 0, size, data) == Layout(cfg, riff, frames, size, data)
  {
  }

  /** Frames counted from bytes are the frames of the audio. */
  lemma FramesWritten(cfg: Config, p: PCM)
    requires cfg.Valid() && Describes(cfg, p)
    ensures cfg.format.BytesPerSample() * cfg.channels > 0
    ensures |Encode(p)| / (cfg.format.BytesPerSample() * cfg.channels) == Len(p)
  {
    var w, n, c := cfg.format.BytesPerSample(), p.NumSamples(), p.channels;
    DivMod(n, c);
    MulAssoc(n / c, c, w);
    Distribute(n / c * c, n % c, w);
    CancelLess(n % c, c, w);
    DivUnique(n * w, c * w, n / c, n % c * w);
  }

  // ---- whole recordings ----

  /** Any pieces written to a new writer, then Close: the file is the one-shot
      file of the concatenated resampler output, at every length. */
  method Record(ops: FloatOps, cfg: Config, pieces: seq<PCM>) returns (bytes: seq<byte>)
    requires cfg.Valid() && cfg.frameSize == 0
    ensures bytes == WavBytes(Joined(cfg, RunAll(ops, cfg, pieces)))
  {
    hide WavBytes, Joined, WriteStep, FlushOut, Encode;
    var file := new File();
    var w := new WAVWriter(ops, file, cfg);
    for i := 0 to |pieces|
      invariant fresh(w) && fresh(file) && fresh(w.resampler)
      invariant w.file == file && w.cfg == cfg && w.resampler.ops == ops
      invariant w.Valid() && !w.closed
      invariant (w.resampler.View(), w.emitted) == RunFrom(ops, cfg, Fresh, pieces[..i])
    {
      assert pieces[..i + 1][..i] == pieces[..i];
      var r := w.Write(pieces[i]);
    }
    assert pieces[..|pieces|] == pieces;
    w.Close();
    bytes := file.bytes;
  }

  /** When rate and channel count already match, that is the one-shot file of the
      input itself, converted to the writer's format. */
  lemma RecordMatching(ops: FloatOps, cfg: Config, pieces: seq<PCM>)
    requires cfg.Valid() && cfg.frameSize == 0 && Uniform(pieces, cfg.sampleRate, cfg.channels)
    requires WellCut(cfg, pieces, cfg.sampleRate, cfg.channels) && |Signal(pieces)| % cfg.channels == 0
    ensures WavBytes(Joined(cfg, RunAll(ops, cfg, pieces))) == WavBytes(ResampleLaws.Audio(cfg, Signal(pieces)))
  {
    hide WavBytes, Joined, RunAll;
    MatchingRun(ops, cfg, pieces);
  }
}
