/** RIFF/WAVE files (audio/wav.go): the one-shot writer, the chunk scanner and
    the round trip between them. */
module Wav {
  import opened Bits
  import opened Float32
  import opened Pcm
  import opened Arith

  const RIFF: seq<byte> := [82, 73, 70, 70]
  const WAVE: seq<byte> := [87, 65, 86, 69]
  const FMT: seq<byte> := [102, 109, 116, 32]
  const FACT: seq<byte> := [102, 97, 99, 116]
  const DATA: seq<byte> := [100, 97, 116, 97]

  const TAG_PCM := 1
  const TAG_FLOAT := 3
  const TAG_EXTENSIBLE := 0xFFFE

  // ---- writing ----

  datatype Chunk = Chunk(id: seq<byte>, payload: seq<byte>) {
    /** What writeChunk can be asked to write without its size wrapping. */
    predicate Fits() { |id| == 4 && |payload| < TWO32 }
  }

  /** writeChunk: id, size, payload, and a zero byte after an odd payload. */
  function ChunkBytes(c: Chunk): seq<byte> {
    c.id + LE32(Trunc32(|c.payload|)) + c.payload + (if |c.payload| % 2 == 1 then [0] else [])
  }

  function Serialise(chunks: seq<Chunk>): seq<byte> {
    if chunks == [] then [] else ChunkBytes(chunks[0]) + Serialise(chunks[1..])
  }

  function FmtPayload(format: Format, sampleRate: int, channels: int): (b: seq<byte>)
    ensures |b| == 16
  {
    var blockAlign := Trunc16(channels * format.BytesPerSample());
    LE16(if format.FormatF32? then TAG_FLOAT else TAG_PCM)
    + LE16(Trunc16(channels))
    + LE32(Trunc32(sampleRate))
    + LE32(Trunc32(Trunc32(sampleRate) * blockAlign))
    + LE16(blockAlign)
    + LE16(Trunc16(format.BytesPerSample() * 8))
  }

  function Len(p: PCM): int { if p.channels <= 0 then 0 else p.NumSamples() / p.channels }

  /** The chunks of a file holding p: "fact" only for float audio. */
  function WavChunks(p: PCM): seq<Chunk> {
    [Chunk(FMT, FmtPayload(p.format, p.sampleRate, p.channels))]
    + (if p.format.FormatF32? then [Chunk(FACT, LE32(Trunc32(Len(p))))] else [])
    + [Chunk(DATA, Encode(p))]
  }

  /** A RIFF/WAVE header announcing the given body, then the chunks. */
  function Riff(body: int, chunks: seq<Chunk>): seq<byte> {
    RIFF + LE32(Trunc32(body)) + WAVE + Serialise(chunks)
  }

  function BodySize(p: PCM): int {
    var n := |Encode(p)|;
    4 + 24 + (if p.format.FormatF32? then 12 else 0) + 8 + n + n % 2
  }

  function WavBytes(p: PCM): seq<byte> { Riff(BodySize(p), WavChunks(p)) }

  lemma SerialiseOne(c: Chunk)
    ensures Serialise([c]) == ChunkBytes(c)
  {
    assert [c][1..] == [];
  }

  lemma {:induction false} SerialiseConcat(a: seq<Chunk>, b: seq<Chunk>)
    ensures Serialise(a + b) == Serialise(a) + Serialise(b)
  {
    if a == [] {
      assert a + b == b;
    } else {
      assert (a + b)[1..] == a[1..] + b;
      SerialiseConcat(a[1..], b);
    }
  }

  /** The announced size is the number of bytes that follow it. */
  lemma BodySizeExact(p: PCM)
    requires p.Valid()
    ensures |WavBytes(p)| == BodySize(p) + 8
  {
    hide FmtPayload, LE32, LE16;
    var f := [Chunk(FMT, FmtPayload(p.format, p.sampleRate, p.channels))];
    var fact := if p.format.FormatF32? then [Chunk(FACT, LE32(Trunc32(Len(p))))] else [];
    var d := [Chunk(DATA, Encode(p))];
    SerialiseConcat(f + fact, d);
    SerialiseConcat(f, fact);
    SerialiseOne(f[0]);
    SerialiseOne(d[0]);
    if p.format.FormatF32? { SerialiseOne(fact[0]); }
  }

  /** WriteWAV, to a buffer. */
  method WriteWAV(p: PCM) returns (r: Result<seq<byte>>)
    ensures p.Valid() ==> r == Ok(WavBytes(p))
    ensures !p.Valid() ==> r == Err(Validate(p.format, p.sampleRate, p.channels).error)
  {
    hide LE32, LE16, ChunkBytes, Trunc32;
    var v := Validate(p.format, p.sampleRate, p.channels);
    if v.Err? {
      return Err(v.error);
    }
    var data := Bytes(p);
    var fmtChunk := FmtPayload(p.format, p.sampleRate, p.channels);
    var body := 4;
    body := body + 8 + |fmtChunk|;
    if p.format == FormatF32 {
      body := body + 8 + 4;
    }
    body := body + 8 + |data| + |data| % 2;

    var buf := RIFF + LE32(Trunc32(body)) + WAVE;
    buf := WriteChunk(buf, FMT, fmtChunk);
    ghost var f, fact, d := [Chunk(FMT, fmtChunk)], [], [Chunk(DATA, data)];
    if p.format == FormatF32 {
      fact := [Chunk(FACT, LE32(Trunc32(Len(p))))];
      buf := WriteChunk(buf, FACT, LE32(Trunc32(Len(p))));
      SerialiseOne(fact[0]);
    }
    buf := WriteChunk(buf, DATA, data);
    SerialiseConcat(f + fact, d);
    SerialiseConcat(f, fact);
    SerialiseOne(f[0]);
    SerialiseOne(d[0]);
    assert f + fact + d == WavChunks(p);
    assert buf == RIFF + LE32(Trunc32(body)) + WAVE + Serialise(WavChunks(p));
    r := Ok(buf);
  }

  method WriteChunk(buf: seq<byte>, id: seq<byte>, payload: seq<byte>) returns (out: seq<byte>)
    ensures out == buf + ChunkBytes(Chunk(id, payload))
  {
    out := buf + id;
    out := out + LE32(Trunc32(|payload|));
    out := out + payload;
    if |payload| % 2 == 1 {
      out := out + [0];
    }
  }

  // ---- scanning ----

  /** The parse variables of ReadWAV. */
  datatype Scan = Scan(haveFormat: bool, tag: int, channels: int, sampleRate: int, bits: int,
                       havePayload: bool, payload: seq<byte>)

  const NOTHING := Scan(false, 0, 0, 0, 0, false, [])

  /** What one chunk does to the parse variables. */
  function ApplyChunk(st: Scan, c: Chunk): Result<Scan> {
    if c.id == FMT then
      if |c.payload| < 16 then Err(ShortFmtChunk)
      else
        var tag := FromLE16(c.payload);
        Ok(st.(haveFormat := true,
               tag := if tag == TAG_EXTENSIBLE && |c.payload| >= 26 then FromLE16(c.payload[24..]) else tag,
               channels := FromLE16(c.payload[2..]),
               sampleRate := FromLE32(c.payload[4..]),
               bits := FromLE16(c.payload[14..])))
    else if c.id == DATA then Ok(st.(havePayload := true, payload := c.payload))
    else Ok(st)
  }

  function ApplyAll(st: Scan, chunks: seq<Chunk>): Result<Scan>
    decreases |chunks|
  {
    if chunks == [] then Ok(st)
    else
      match ApplyChunk(st, chunks[0])
      case Err(e) => Err(e)
      case Ok(next) => ApplyAll(next, chunks[1..])
  }

  /** The chunk at pos: a size that runs past the end is cut to what is there. */
  function ChunkAt(data: seq<byte>, pos: nat): (c: Chunk)
    requires pos + 8 <= |data|
    ensures pos + 8 + |c.payload| <= |data|
  {
    var size := FromLE32(data[pos + 4..pos + 8]);
    Chunk(data[pos..pos + 4], if pos + 8 + size > |data| then data[pos + 8..] else data[pos + 8..pos + 8 + size])
  }

  function Padded(n: nat): nat { n + n % 2 }

  function ScanFrom(data: seq<byte>, pos: nat, st: Scan): Result<Scan>
    decreases |data| - pos
  {
    if pos + 8 > |data| then Ok(st)
    else
      var c := ChunkAt(data, pos);
      match ApplyChunk(st, c)
      case Err(e) => Err(e)
      case Ok(next) => ScanFrom(data, pos + 8 + Padded(|c.payload|), next)
  }

  lemma ChunkAtSerialised(prefix: seq<byte>, c: Chunk, rest: seq<byte>)
    requires c.Fits()
    ensures var data := prefix + (ChunkBytes(c) + rest);
      && |prefix| + 8 <= |data| && ChunkAt(data, |prefix|) == c
      && |prefix| + 8 + Padded(|c.payload|) == |prefix| + |ChunkBytes(c)|
  {
    hide LE32, FromLE32;
    var data := prefix + (ChunkBytes(c) + rest);
    var p := |prefix|;
    assert data[p..p + 4] == c.id;
    assert data[p + 4..p + 8] == LE32(|c.payload|);
    LE32Inverse(|c.payload|);
    assert data[p + 8..p + 8 + |c.payload|] == c.payload;
    if p + 8 + |c.payload| == |data| { assert data[p + 8..] == c.payload; }
  }

  /** Scanning what writeChunk wrote visits exactly the chunks written, in order,
      whatever their ids, odd sizes and padding. */
  lemma {:induction false} ScanSerialised(prefix: seq<byte>, chunks: seq<Chunk>, st: Scan)
    requires forall i :: 0 <= i < |chunks| ==> chunks[i].Fits()
    ensures ScanFrom(prefix + Serialise(chunks), |prefix|, st) == ApplyAll(st, chunks)
    decreases |chunks|
  {
    hide ChunkBytes, ChunkAt, ApplyChunk;
    if chunks == [] {
      assert Serialise(chunks) == [];
    } else {
      var c, rest := chunks[0], Serialise(chunks[1..]);
      var data := prefix + (ChunkBytes(c) + rest);
      assert prefix + Serialise(chunks) == data;
      ChunkAtSerialised(prefix, c, rest);
      var r := ApplyChunk(st, c);
      if r.Ok? {
        assert (prefix + ChunkBytes(c)) + rest == data;
        ScanSerialised(prefix + ChunkBytes(c), chunks[1..], r.value);
      }
    }
  }

  // ---- the last "fmt " and the last "data" ----

  ghost predicate ShortFmt(chunks: seq<Chunk>) {
    exists i :: 0 <= i < |chunks| && chunks[i].id == FMT && |chunks[i].payload| < 16
  }

  /** k is the index of the last chunk with this id. */
  ghost predicate IsLast(chunks: seq<Chunk>, id: seq<byte>, k: int) {
    0 <= k < |chunks| && chunks[k].id == id && forall i :: k < i < |chunks| ==> chunks[i].id != id
  }

  lemma {:induction false} ApplyAllConcat(st: Scan, a: seq<Chunk>, b: seq<Chunk>)
    ensures ApplyAll(st, a + b) ==
      if ApplyAll(st, a).Err? then ApplyAll(st, a) else ApplyAll(ApplyAll(st, a).value, b)
    decreases |a|
  {
    hide ApplyChunk;
    if a == [] {
      assert a + b == b;
    } else {
      assert (a + b)[1..] == a[1..] + b;
      var r := ApplyChunk(st, a[0]);
      if r.Ok? {
        ApplyAllConcat(r.value, a[1..], b);
      }
    }
  }

  /** The scan fails exactly on a "fmt " chunk under 16 bytes. */
  lemma {:induction false} ApplyAllFails(st: Scan, chunks: seq<Chunk>)
    ensures ApplyAll(st, chunks).Err? <==> ShortFmt(chunks)
    ensures ApplyAll(st, chunks).Err? ==> ApplyAll(st, chunks).error == ShortFmtChunk
    decreases |chunks|
  {
    if chunks != [] {
      var r := ApplyChunk(st, chunks[0]);
      if r.Ok? {
        ApplyAllFails(r.value, chunks[1..]);
        if ShortFmt(chunks[1..]) {
          var i :| 0 <= i < |chunks[1..]| && chunks[1..][i].id == FMT && |chunks[1..][i].payload| < 16;
          assert chunks[i + 1].id == FMT && |chunks[i + 1].payload| < 16;
        }
        if ShortFmt(chunks) {
          var i :| 0 <= i < |chunks| && chunks[i].id == FMT && |chunks[i].payload| < 16;
          assert chunks[1..][i - 1] == chunks[i];
        }
      }
    }
  }

  /** Chunks that are neither "fmt " nor "data" leave no trace, and only the last
      of each counts. */
  lemma {:induction false} LastChunkWins(st: Scan, chunks: seq<Chunk>, k: int)
    requires ApplyAll(st, chunks).Ok?
    ensures IsLast(chunks, DATA, k) ==>
            ApplyAll(st, chunks).value.havePayload && ApplyAll(st, chunks).value.payload == chunks[k].payload
    ensures IsLast(chunks, FMT, k) ==> Says(chunks[k].payload, ApplyAll(st, chunks).value)
    decreases |chunks|
  {
    hide FromLE16, FromLE32;
    if chunks != [] {
      var init, last := chunks[..|chunks| - 1], chunks[|chunks| - 1];
      assert chunks == init + [last];
      ApplyAllConcat(st, init, [last]);
      var mid := ApplyAll(st, init).value;
      assert ApplyAll(mid, [last]) == ApplyChunk(mid, last);
      if k < |chunks| - 1 {
        LastChunkWins(st, init, k);
        assert IsLast(chunks, DATA, k) ==> IsLast(init, DATA, k) && last.id != DATA;
        assert IsLast(chunks, FMT, k) ==> IsLast(init, FMT, k) && last.id != FMT;
      }
    }
  }

  /** What the bytes of a "fmt " chunk say: the tag comes first, or, behind the extensible
      tag, 24 bytes in if the chunk is that long; then channels, rate, and 14 bytes in the
      bits per sample. */
  ghost predicate Says(b: seq<byte>, sc: Scan) {
    && sc.haveFormat && |b| >= 16
    && (FromLE16(b) != 0xFFFE || |b| < 26 ==> sc.tag == FromLE16(b))
    && (FromLE16(b) == 0xFFFE && |b| >= 26 ==> sc.tag == FromLE16(b[24..]))
    && sc.channels == FromLE16(b[2..]) && sc.sampleRate == FromLE32(b[4..]) && sc.bits == FromLE16(b[14..])
  }

  // ---- from parse variables to a buffer ----

  /** int8(b). */
  function AsInt8(b: byte): int { if b < 128 then b as int else b as int - 256 }

  /** wavFromInt's conversion of one sample of 1, 3 or 4 bytes. */
  function IntSample(b: seq<byte>): int16
    requires |b| in {1, 3, 4}
  {
    if |b| == 1 then (b[0] as int - 128) * 256
    else if |b| == 3 then
      var v := b[0] as int + 256 * (b[1] as int) + 65536 * AsInt8(b[2]);
      assert v / 256 == b[1] as int + 256 * AsInt8(b[2]);
      v / 256
    else
      var v := AsInt32(FromLE32(b));
      assert v / 65536 == b[2] as int + 256 * AsInt8(b[3]);
      v / 65536
  }

  /** Narrowing keeps the two most significant bytes, for every width and sign; the one
      byte of 8-bit audio, which has a bias of 128, becomes the upper one: the bias is the
      sign bit turned over. */
  lemma IntSampleTopBytes(b: seq<byte>)
    requires |b| in {1, 3, 4}
    ensures |b| > 1 ==> IntSample(b) == AsInt16(FromLE16(b[|b| - 2..]))
    ensures |b| == 1 ==> IntSample(b) == AsInt16(FromLE16([0, if b[0] < 128 then b[0] + 128 else b[0] - 128]))
    ensures |b| == 1 ==> (IntSample(b) == 0 <==> b[0] == 128)
  {
  }

  function IntSamples(b: seq<byte>, width: nat): (s: seq<int16>)
    requires width in {1, 3, 4}
    ensures |s| == |b| / width
  {
    seq(|b| / width, i requires 0 <= i < |b| / width =>
      InRange(i, |b|, width); IntSample(b[i * width..i * width + width]))
  }

  lemma InRange(i: nat, n: nat, width: nat)
    requires width > 0 && i < n / width
    ensures 0 <= i * width && i * width + width <= n
  {
    DivMod(n, width);
    MulLe(i + 1, n / width, width);
    MulSucc(i, width);
    MulLe(0, i, width);
  }

  /** wavFromInt. */
  function FromIntSpec(payload: seq<byte>, bits: nat, sampleRate: int, channels: int): Result<PCM>
    requires sampleRate > 0 && channels > 0
  {
    var width := bits / 8;
    if width < 1 || width > 4 || bits % 8 != 0 then Err(UnsupportedDepth)
    else if width == 2 then Decoded(payload, FormatS16, sampleRate, channels)
    else Ok(PCM(FormatS16, sampleRate, channels, 0, IntSamples(WholePrefix(payload, width * channels), width), []))
  }

  method WavFromInt(payload: seq<byte>, bits: nat, sampleRate: int, channels: int) returns (r: Result<PCM>)
    requires sampleRate > 0 && channels > 0
    ensures r == FromIntSpec(payload, bits, sampleRate, channels)
  {
    var width := bits / 8;
    if width < 1 || width > 4 || bits % 8 != 0 {
      return Err(UnsupportedDepth);
    }
    if width == 2 {
      r := FromBytes(payload, FormatS16, sampleRate, channels);
      return;
    }
    var whole := WholePrefix(payload, width * channels);
    var out := new int16[|whole| / width];
    for i := 0 to |whole| / width
      invariant forall j :: 0 <= j < i ==> out[j] == IntSamples(whole, width)[j]
    {
      InRange(i, |whole|, width);
      out[i] := IntSample(whole[i * width..i * width + width]);
    }
    assert out[..] == IntSamples(whole, width);
    r := Ok(PCM(FormatS16, sampleRate, channels, 0, out[..], []));
  }

  /** wavFromFloat64; narrow is the conversion of a double's bits to a single's. */
  function FromFloat64(narrow: uint64 -> F32, payload: seq<byte>, sampleRate: int, channels: int): PCM
    requires sampleRate > 0 && channels > 0
  {
    var whole := WholePrefix(payload, 8 * channels);
    PCM(FormatF32, sampleRate, channels, 0, [],
        seq(|whole| / 8, i requires 0 <= i < |whole| / 8 => narrow(FromLE64(whole[8 * i..8 * i + 8]))))
  }

  /** Everything ReadWAV does after the scan. */
  function Finish(narrow: uint64 -> F32, st: Scan): Result<PCM> {
    if !st.haveFormat then Err(NoFmtChunk)
    else if !st.havePayload then Err(NoDataChunk)
    else
      match Validate(FormatS16, st.sampleRate, st.channels)
      case Err(e) => Err(e)
      case Ok(_) =>
        if st.tag == TAG_FLOAT && st.bits == 32 then Decoded(st.payload, FormatF32, st.sampleRate, st.channels)
        else if st.tag == TAG_FLOAT && st.bits == 64 then
          Ok(FromFloat64(narrow, st.payload, st.sampleRate, st.channels))
        else if st.tag == TAG_PCM && st.bits >= 0 then FromIntSpec(st.payload, st.bits, st.sampleRate, st.channels)
        else Err(UnsupportedEncoding)
  }

  function Parse(narrow: uint64 -> F32, data: seq<byte>): Result<PCM> {
    if |data| < 12 || data[0..4] != RIFF || data[8..12] != WAVE then Err(NotWav)
    else
      match ScanFrom(data, 12, NOTHING)
      case Err(e) => Err(e)
      case Ok(st) => Finish(narrow, st)
  }

  /** ReadWAV. The scan ends on every input: each turn moves pos past a chunk header. */
  method ReadWAV(narrow: uint64 -> F32, data: seq<byte>) returns (r: Result<PCM>)
    ensures r == Parse(narrow, data)
  {
    hide Finish, FromLE16, FromLE32, ChunkAt;
    if |data| < 12 || data[0..4] != RIFF || data[8..12] != WAVE {
      return Err(NotWav);
    }
    var st, pos := NOTHING, 12;
    while pos + 8 <= |data|
      invariant pos >= 12 && st.bits >= 0
      invariant ScanFrom(data, pos, st) == ScanFrom(data, 12, NOTHING)
      decreases |data| - pos
    {
      var c := ChunkAt(data, pos);
      var size := |c.payload|;
      pos := pos + 8;
      if c.id == FMT {
        if size < 16 {
          return Err(ShortFmtChunk);
        }
        var tag := FromLE16(c.payload);
        st := st.(channels := FromLE16(c.payload[2..]), sampleRate := FromLE32(c.payload[4..]));
        st := st.(bits := FromLE16(c.payload[14..]));
        if tag == TAG_EXTENSIBLE && size >= 26 {
          tag := FromLE16(c.payload[24..]);
        }
        st := st.(tag := tag, haveFormat := true);
      } else if c.id == DATA {
        st := st.(payload := c.payload, havePayload := true);
      }
      pos := pos + size + size % 2;
    }
    r := FinishRead(narrow, st);
  }

  /** The checks and conversions after the scan. */
  method FinishRead(narrow: uint64 -> F32, st: Scan) returns (r: Result<PCM>)
    requires st.bits >= 0
    ensures r == Finish(narrow, st)
  {
    hide FromIntSpec, FromFloat64, Decoded;
    if !st.haveFormat {
      return Err(NoFmtChunk);
    }
    if !st.havePayload {
      return Err(NoDataChunk);
    }
    var v := Validate(FormatS16, st.sampleRate, st.channels);
    if v.Err? {
      return Err(v.error);
    }
    if st.tag == TAG_FLOAT && st.bits == 32 {
      r := FromBytes(st.payload, FormatF32, st.sampleRate, st.channels);
    } else if st.tag == TAG_FLOAT && st.bits == 64 {
      r := Ok(FromFloat64(narrow, st.payload, st.sampleRate, st.channels));
    } else if st.tag == TAG_PCM {
      r := WavFromInt(st.payload, st.bits, st.sampleRate, st.channels);
    } else {
      r := Err(UnsupportedEncoding);
    }
  }

  /** Any list of chunks behind a RIFF/WAVE header parses to what its chunks say,
      in order; with LastChunkWins, to its last "fmt " and its last "data". */
  lemma ParseChunks(narrow: uint64 -> F32, body: int, chunks: seq<Chunk>)
    requires forall i :: 0 <= i < |chunks| ==> chunks[i].Fits()
    ensures Parse(narrow, Riff(body, chunks)) ==
      var scan := ApplyAll(NOTHING, chunks);
      if scan.Err? then Err(scan.error) else Finish(narrow, scan.value)
  {
    hide Finish, ApplyAll, ScanFrom, Serialise, LE32;
    var header := RIFF + LE32(Trunc32(body)) + WAVE;
    var data := Riff(body, chunks);
    assert data == header + Serialise(chunks);
    assert data[0..4] == RIFF && data[8..12] == WAVE;
    ScanSerialised(header, chunks, NOTHING);
  }

  // ---- what can be read ----

  /** A file is no WAV file exactly when it lacks the RIFF/WAVE header. */
  lemma NotWavIff(narrow: uint64 -> F32, data: seq<byte>)
    ensures Parse(narrow, data) == Err(NotWav) <==>
      |data| < 12 || [data[0], data[1], data[2], data[3]] != RIFF || [data[8], data[9], data[10], data[11]] != WAVE
  {
    if |data| >= 12 {
      assert data[0..4] == [data[0], data[1], data[2], data[3]];
      assert data[8..12] == [data[8], data[9], data[10], data[11]];
      ScanErrors(data, 12, NOTHING);
      hide FromIntSpec, Decoded, FromFloat64, ScanFrom;
      assert forall st :: Finish(narrow, st) != Err(NotWav) by { FinishErrors(narrow); }
    }
  }

  lemma {:induction false} ScanErrors(data: seq<byte>, pos: nat, st: Scan)
    ensures ScanFrom(data, pos, st).Err? ==> ScanFrom(data, pos, st).error == ShortFmtChunk
    decreases |data| - pos
  {
    hide FromLE16, FromLE32, ChunkAt;
    if pos + 8 <= |data| {
      var c := ChunkAt(data, pos);
      var r := ApplyChunk(st, c);
      if r.Ok? { ScanErrors(data, pos + 8 + Padded(|c.payload|), r.value); }
    }
  }

  lemma FinishErrors(narrow: uint64 -> F32)
    ensures forall st :: Finish(narrow, st) != Err(NotWav)
  {
    hide DecodeS16, DecodeF32, IntSamples, FromFloat64;
  }

  /** The depths that can be read. */
  predicate Readable(st: Scan) {
    || (st.tag == 3 && st.bits in {32, 64})
    || (st.tag == 1 && st.bits in {8, 16, 24, 32})
  }

  /** Exactly the formats with a channel and a rate whose samples are floats of 32 or 64
      bits or integers of 8, 16, 24 or 32 can be read; otherwise the error names the first
      thing that is missing. */
  lemma ReadableIff(narrow: uint64 -> F32, st: Scan)
    requires st.bits >= 0
    ensures var r := Finish(narrow, st);
      && (r.Ok? <==> st.haveFormat && st.havePayload && st.sampleRate > 0 && st.channels > 0 && Readable(st))
      && (r.Ok? ==>
            r.value.format == (if st.tag == 3 then FormatF32 else FormatS16)
            && r.value.sampleRate == st.sampleRate && r.value.channels == st.channels)
      && (r == Err(NoFmtChunk) <==> !st.haveFormat)
      && (r == Err(NoDataChunk) <==> st.haveFormat && !st.havePayload)
      && (r == Err(UnsupportedDepth) ==> st.tag == 1) && (r == Err(UnsupportedEncoding) ==> st.tag != 1)
  {
    hide DecodeS16, DecodeF32, IntSamples, WholePrefix;
  }

  /** The concatenation of some groups of bytes. */
  function Flat(groups: seq<seq<byte>>): seq<byte> { if groups == [] then [] else groups[0] + Flat(groups[1..]) }

  ghost predicate EachOf(groups: seq<seq<byte>>, width: nat) { forall i :: 0 <= i < |groups| ==> |groups[i]| == width }

  lemma {:induction false} FlatAt(groups: seq<seq<byte>>, width: nat, i: nat)
    requires EachOf(groups, width) && i < |groups|
    ensures |Flat(groups)| == |groups| * width
    ensures 0 <= i * width && i * width + width <= |Flat(groups)|
    ensures Flat(groups)[i * width..i * width + width] == groups[i]
    decreases |groups|
  {
    FlatLength(groups, width);
    MulLe(0, i, width);
    MulLe(i + 1, |groups|, width);
    MulSucc(i, width);
    if i > 0 {
      var rest := groups[1..];
      FlatLength(rest, width);
      FlatAt(rest, width, i - 1);
      MulSucc(i - 1, width);
      assert Flat(groups)[i * width..i * width + width] == Flat(rest)[(i - 1) * width..(i - 1) * width + width];
    }
  }

  lemma {:induction false} FlatLength(groups: seq<seq<byte>>, width: nat)
    requires EachOf(groups, width)
    ensures |Flat(groups)| == |groups| * width
    decreases |groups|
  {
    if groups != [] {
      FlatLength(groups[1..], width);
      MulSucc(|groups| - 1, width);
    }
  }

  /** Integer samples of 1, 3 or 4 bytes are converted one by one, in order, and a partial
      frame at the end is dropped. */
  lemma IntSamplesOneByOne(groups: seq<seq<byte>>, width: nat, channels: int, rate: int, extra: seq<byte>)
    requires width in {1, 3, 4} && EachOf(groups, width) && channels > 0 && rate > 0
    requires |groups| % channels == 0 && |extra| < width * channels
    ensures var r := FromIntSpec(Flat(groups) + extra, 8 * width, rate, channels);
      && r.Ok? && |r.value.s16| == |groups|
      && forall i :: 0 <= i < |groups| ==> r.value.s16[i] == IntSample(groups[i])
  {
    hide IntSample;
    var b := Flat(groups);
    FlatLength(groups, width);
    DropsPartial(b, extra, |groups|, width, channels);
    DivUnique(|b|, width, |groups|, 0);
    forall i | 0 <= i < |groups| ensures IntSamples(b, width)[i] == IntSample(groups[i]) {
      FlatAt(groups, width, i);
    }
  }

  lemma DropsPartial(b: seq<byte>, extra: seq<byte>, n: nat, width: nat, channels: int)
    requires width > 0 && channels > 0 && |b| == n * width && n % channels == 0 && |extra| < width * channels
    ensures WholePrefix(b + extra, width * channels) == b
  {
    DivMod(n, channels);
    var q := n / channels;
    MulAssoc(q, channels, width);
    assert |b + extra| == q * (channels * width) + |extra|;
    assert channels * width == width * channels;
    DivUnique(|b + extra|, width * channels, q, |extra|);
  }

  /** So are floats of 64 bits. */
  lemma DoublesOneByOne(
      narrow: uint64 -> F32, groups: seq<seq<byte>>, channels: int, rate: int, extra: seq<byte>)
    requires EachOf(groups, 8) && channels > 0 && rate > 0 && |groups| % channels == 0 && |extra| < 8 * channels
    ensures var r := FromFloat64(narrow, Flat(groups) + extra, rate, channels);
      && |r.f32| == |groups|
      && forall i :: 0 <= i < |groups| ==> r.f32[i] == narrow(FromLE64(groups[i]))
  {
    hide FromLE64;
    var b := Flat(groups);
    FlatLength(groups, 8);
    DropsPartial(b, extra, |groups|, 8, channels);
    forall i | 0 <= i < |groups| ensures b[8 * i..8 * i + 8] == groups[i] {
      FlatAt(groups, 8, i);
    }
  }

  /** A last chunk that announces more bytes than there are is read as far as it goes. */
  lemma {:induction false} TruncatedTail(
      prefix: seq<byte>, chunks: seq<Chunk>, id: seq<byte>, size: uint32, rest: seq<byte>, st: Scan)
    requires forall i :: 0 <= i < |chunks| ==> chunks[i].Fits()
    requires |id| == 4 && size >= |rest|
    ensures ScanFrom(prefix + Serialise(chunks) + (id + LE32(size) + rest), |prefix|, st)
         == ApplyAll(st, chunks + [Chunk(id, rest)])
    decreases |chunks|
  {
    hide ApplyChunk, LE32, FromLE32, ChunkBytes, ChunkAt;
    var tail := id + LE32(size) + rest;
    if chunks == [] {
      assert prefix + Serialise(chunks) + tail == prefix + tail;
      assert [] + [Chunk(id, rest)] == [Chunk(id, rest)];
      TailAlone(prefix, id, size, rest, st);
    } else {
      var c := chunks[0];
      var more := Serialise(chunks[1..]) + tail;
      assert prefix + Serialise(chunks) + tail == prefix + (ChunkBytes(c) + more);
      ChunkAtSerialised(prefix, c, more);
      assert (chunks + [Chunk(id, rest)])[1..] == chunks[1..] + [Chunk(id, rest)];
      var r := ApplyChunk(st, c);
      if r.Ok? {
        assert (prefix + ChunkBytes(c)) + Serialise(chunks[1..]) + tail == prefix + (ChunkBytes(c) + more);
        TruncatedTail(prefix + ChunkBytes(c), chunks[1..], id, size, rest, r.value);
      }
    }
  }

  lemma TailAlone(prefix: seq<byte>, id: seq<byte>, size: uint32, rest: seq<byte>, st: Scan)
    requires |id| == 4 && size >= |rest|
    ensures ScanFrom(prefix + (id + LE32(size) + rest), |prefix|, st) == ApplyAll(st, [Chunk(id, rest)])
  {
    hide ApplyChunk, LE32, FromLE32, ChunkAt;
    TailChunk(prefix, id, size, rest);
    assert [Chunk(id, rest)][1..] == [];
    var r := ApplyChunk(st, Chunk(id, rest));
    if r.Ok? {
      var data := prefix + (id + LE32(size) + rest);
      assert ScanFrom(data, |prefix| + 8 + Padded(|rest|), r.value) == Ok(r.value);
    }
  }

  lemma TailChunk(prefix: seq<byte>, id: seq<byte>, size: uint32, rest: seq<byte>)
    requires |id| == 4 && size >= |rest|
    ensures var data := prefix + (id + LE32(size) + rest); var p := |prefix|;
      p + 8 <= |data| && ChunkAt(data, p) == Chunk(id, rest) && p + 8 + |rest| == |data|
  {
    hide LE32, FromLE32;
    var data := prefix + (id + LE32(size) + rest);
    var p := |prefix|;
    assert data[p..p + 4] == id && data[p + 4..p + 8] == LE32(size) && data[p + 8..] == rest;
    LE32Inverse(size);
    assert data[p + 8..p + 8 + |rest|] == rest;
  }

  // ---- round trip ----

  lemma FmtFields(format: Format, sampleRate: int, channels: int)
    ensures var b := FmtPayload(format, sampleRate, channels); var frame := channels * format.BytesPerSample();
      && FromLE16(b) == (if format.FormatF32? then TAG_FLOAT else TAG_PCM)
      && FromLE16(b[2..]) == Trunc16(channels) && FromLE32(b[4..]) == Trunc32(sampleRate)
      && FromLE32(b[8..]) == Trunc32(Trunc32(sampleRate) * Trunc16(frame)) && FromLE16(b[12..]) == Trunc16(frame)
      && FromLE16(b[14..]) == format.BytesPerSample() * 8
  {
    var blockAlign := Trunc16(channels * format.BytesPerSample());
    var byteRate := Trunc32(Trunc32(sampleRate) * blockAlign);
    var tag := if format.FormatF32? then TAG_FLOAT else TAG_PCM;
    var bits := Trunc16(format.BytesPerSample() * 8);
    hide LE16, LE32, FromLE16, FromLE32, Trunc16, Trunc32;
    LE16Inverse(tag);
    LE16Inverse(Trunc16(channels));
    LE16Inverse(blockAlign);
    LE16Inverse(bits);
    LE32Inverse(Trunc32(sampleRate));
    LE32Inverse(byteRate);
    FieldsOf(LE16(tag), LE16(Trunc16(channels)), LE32(Trunc32(sampleRate)), LE32(byteRate), LE16(blockAlign),
             LE16(bits));
    assert bits == format.BytesPerSample() * 8 by { SmallBits(format); }
  }

  lemma SmallBits(format: Format)
    ensures Trunc16(format.BytesPerSample() * 8) == format.BytesPerSample() * 8
  {
  }

  /** Reading fields of the widths of a "fmt " chunk back. */
  lemma FieldsOf(a: seq<byte>, b: seq<byte>, c: seq<byte>, d: seq<byte>, e: seq<byte>, f: seq<byte>)
    requires |a| == 2 && |b| == 2 && |c| == 4 && |d| == 4 && |e| == 2 && |f| == 2
    ensures var s := a + b + c + d + e + f;
      && FromLE16(s) == FromLE16(a) && FromLE16(s[2..]) == FromLE16(b) && FromLE32(s[4..]) == FromLE32(c)
      && FromLE32(s[8..]) == FromLE32(d) && FromLE16(s[12..]) == FromLE16(e) && FromLE16(s[14..]) == FromLE16(f)
  {
    hide FromLE16, FromLE32;
    var s := a + b + c + d + e + f;
    assert s[0..2] == a && s[2..4] == b && s[4..8] == c && s[8..12] == d && s[12..14] == e && s[14..16] == f;
    From16At(s, 0, a);
    From16At(s, 2, b);
    From32At(s, 4, c);
    From32At(s, 8, d);
    From16At(s, 12, e);
    From16At(s, 14, f);
    assert s[0..] == s;
  }

  lemma From16At(s: seq<byte>, i: nat, part: seq<byte>)
    requires |part| == 2 && i + 2 <= |s| && s[i..i + 2] == part
    ensures FromLE16(s[i..]) == FromLE16(part)
  {
    assert part[0] == s[i] && part[1] == s[i + 1];
  }

  lemma From32At(s: seq<byte>, i: nat, part: seq<byte>)
    requires |part| == 4 && i + 4 <= |s| && s[i..i + 4] == part
    ensures FromLE32(s[i..]) == FromLE32(part)
  {
    assert part[0] == s[i] && part[1] == s[i + 1] && part[2] == s[i + 2] && part[3] == s[i + 3];
  }

  /** Where the data chunk begins. */
  function DataAt(format: Format): nat { if format.FormatF32? then 48 else 36 }

  /** The bytes before the data chunk. */
  function Head(p: PCM): (b: seq<byte>)
    ensures |b| == DataAt(p.format)
  {
    RIFF + LE32(Trunc32(BodySize(p))) + WAVE + (FMT + LE32(16) + FmtPayload(p.format, p.sampleRate, p.channels))
    + (if p.format.FormatF32? then FACT + LE32(4) + LE32(Trunc32(Len(p))) else [])
  }

  lemma WavParts(p: PCM)
    requires p.Valid()
    ensures var n := |Encode(p)|;
      WavBytes(p) == Head(p) + (DATA + LE32(Trunc32(n))) + (Encode(p) + if n % 2 == 1 then [0] else [])
  {
    hide FmtPayload, LE32, LE16, Encode, BodySize, Len;
    var f := [Chunk(FMT, FmtPayload(p.format, p.sampleRate, p.channels))];
    var fact := if p.format.FormatF32? then [Chunk(FACT, LE32(Trunc32(Len(p))))] else [];
    var d := [Chunk(DATA, Encode(p))];
    SerialiseConcat(f + fact, d);
    SerialiseConcat(f, fact);
    SerialiseOne(f[0]);
    SerialiseOne(d[0]);
    if p.format.FormatF32? { SerialiseOne(fact[0]); }
  }

  /** The file at its fixed offsets: every size says how many bytes follow, the format
      fields are those of the buffer, as far as they fit, and the data chunk holds the
      encoded samples. */
  lemma HeaderFields(p: PCM)
    requires p.Valid()
    ensures var b, at, n := WavBytes(p), DataAt(p.format), |Encode(p)|;
      var frame := p.channels * p.format.BytesPerSample();
      && |b| >= at + 8 + n
      && b[0..4] == RIFF && FromLE32(b[4..8]) == Trunc32(|b| - 8) && b[8..12] == WAVE
      && b[12..16] == FMT && FromLE32(b[16..20]) == 16
      && FromLE16(b[20..]) == (if p.format.FormatF32? then 3 else 1)
      && FromLE16(b[22..]) == Trunc16(p.channels) && FromLE32(b[24..]) == Trunc32(p.sampleRate)
      && FromLE32(b[28..]) == Trunc32(Trunc32(p.sampleRate) * Trunc16(frame))
      && FromLE16(b[32..]) == Trunc16(frame) && FromLE16(b[34..]) == 8 * p.format.BytesPerSample()
      && (p.format.FormatF32? ==>
            b[36..40] == FACT && FromLE32(b[40..44]) == 4
            && FromLE32(b[44..48]) == Trunc32(p.NumSamples() / p.channels))
      && b[at..at + 4] == DATA && FromLE32(b[at + 4..at + 8]) == Trunc32(n) && b[at + 8..at + 8 + n] == Encode(p)
  {
    hide FmtPayload, LE32, LE16, FromLE16, FromLE32, Encode, BodySize, Trunc16, Trunc32, WavBytes, Len;
    var b, at, n, f := WavBytes(p), DataAt(p.format), |Encode(p)|, FmtPayload(p.format, p.sampleRate, p.channels);
    WavParts(p);
    BodySizeExact(p);
    FmtFields(p.format, p.sampleRate, p.channels);
    LE32Inverse(Trunc32(BodySize(p)));
    LE32Inverse(16);
    LE32Inverse(Trunc32(n));
    var fact := if p.format.FormatF32? then FACT + LE32(4) + LE32(Trunc32(Len(p))) else [];
    var pad := if n % 2 == 1 then [0] else [];
    var tail := (DATA + LE32(Trunc32(n))) + (Encode(p) + pad);
    HeadSlices(RIFF, LE32(Trunc32(BodySize(p))), WAVE, FMT, LE32(16), f, fact + tail);
    assert b == RIFF + LE32(Trunc32(BodySize(p))) + WAVE + (FMT + LE32(16) + f) + (fact + tail);
    FmtInFile(b, f);
    if p.format.FormatF32? {
      LE32Inverse(4);
      LE32Inverse(Trunc32(Len(p)));
      FactSlices(b, FACT, LE32(4), LE32(Trunc32(Len(p))), tail);
      assert Len(p) == p.NumSamples() / p.channels by { LenIs(p); }
    }
    TailSlices(b, at, DATA, LE32(Trunc32(n)), Encode(p), pad);
  }

  lemma LenIs(p: PCM)
    requires p.channels > 0
    ensures Len(p) == p.NumSamples() / p.channels
  {
  }

  lemma HeadSlices(riff: seq<byte>, size: seq<byte>, wave: seq<byte>, id: seq<byte>, len: seq<byte>, f: seq<byte>,
                   rest: seq<byte>)
    requires |riff| == |size| == |wave| == |id| == |len| == 4 && |f| == 16
    ensures var b := riff + size + wave + (id + len + f) + rest;
      && |b| == 36 + |rest| && b[36..] == rest
      && b[0..4] == riff && b[4..8] == size && b[8..12] == wave && b[12..16] == id && b[16..20] == len && b[20..36] == f
  {
  }

  lemma FactSlices(b: seq<byte>, id: seq<byte>, len: seq<byte>, count: seq<byte>, rest: seq<byte>)
    requires |b| >= 36 && b[36..] == (id + len + count) + rest && |id| == |len| == |count| == 4
    ensures |b| == 48 + |rest| && b[48..] == rest
    ensures b[36..40] == id && b[40..44] == len && b[44..48] == count
  {
    var t := (id + len + count) + rest;
    assert t[0..4] == id && t[4..8] == len && t[8..12] == count && t[12..] == rest;
    SliceOfSlice(b, 36, 0, 4);
    SliceOfSlice(b, 36, 4, 8);
    SliceOfSlice(b, 36, 8, 12);
    SliceOfSlice(b, 36, 12, |b| - 36);
  }

  lemma SliceOfSlice(b: seq<byte>, at: nat, i: nat, j: nat)
    requires i <= j && at + j <= |b|
    ensures b[at..][i..j] == b[at + i..at + j]
  {
  }

  lemma TailSlices(b: seq<byte>, at: nat, id: seq<byte>, len: seq<byte>, data: seq<byte>, pad: seq<byte>)
    requires at <= |b| && b[at..] == (id + len) + (data + pad) && |id| == |len| == 4
    ensures |b| == at + 8 + |data| + |pad|
    ensures b[at..at + 4] == id && b[at + 4..at + 8] == len && b[at + 8..at + 8 + |data|] == data
  {
    var t, n := (id + len) + (data + pad), |data|;
    assert t[0..4] == id && t[4..8] == len && t[8..8 + n] == data;
    SliceOfSlice(b, at, 0, 4);
    SliceOfSlice(b, at, 4, 8);
    SliceOfSlice(b, at, 8, 8 + n);
  }

  lemma FmtInFile(b: seq<byte>, f: seq<byte>)
    requires |b| >= 36 && b[20..36] == f
    ensures FromLE16(b[20..]) == FromLE16(f) && FromLE16(b[22..]) == FromLE16(f[2..])
    ensures FromLE32(b[24..]) == FromLE32(f[4..]) && FromLE32(b[28..]) == FromLE32(f[8..])
    ensures FromLE16(b[32..]) == FromLE16(f[12..]) && FromLE16(b[34..]) == FromLE16(f[14..])
  {
    assert forall i :: 0 <= i < 16 ==> f[i] == b[20 + i];
  }

  /** The parse variables after the chunks WriteWAV writes. */
  lemma ScanWritten(p: PCM)
    requires p.Valid()
    ensures ApplyAll(NOTHING, WavChunks(p)) ==
      Ok(Scan(true, if p.format.FormatF32? then TAG_FLOAT else TAG_PCM, Trunc16(p.channels), Trunc32(p.sampleRate),
              p.format.BytesPerSample() * 8, true, Encode(p)))
  {
    hide FmtPayload, FromLE16, FromLE32, LE32, Encode;
    FmtFields(p.format, p.sampleRate, p.channels);
    var f := Chunk(FMT, FmtPayload(p.format, p.sampleRate, p.channels));
    var fact := Chunk(FACT, LE32(Trunc32(Len(p))));
    var d := Chunk(DATA, Encode(p));
    var st := ApplyChunk(NOTHING, f).value;
    var end := st.(havePayload := true, payload := Encode(p));
    ApplyAllNone(end);
    ApplyAllCons(st, d, []);
    ApplyAllCons(st, fact, [d]);
    assert [d] + [] == [d];
    if p.format.FormatF32? {
      assert WavChunks(p) == [f] + ([fact] + [d]);
      ApplyAllCons(NOTHING, f, [fact] + [d]);
    } else {
      assert WavChunks(p) == [f] + [d];
      ApplyAllCons(NOTHING, f, [d]);
    }
  }

  lemma ApplyAllNone(st: Scan)
    ensures ApplyAll(st, []) == Ok(st)
  {
  }

  lemma ApplyAllCons(st: Scan, c: Chunk, rest: seq<Chunk>)
    requires ApplyChunk(st, c).Ok?
    ensures ApplyAll(st, [c] + rest) == ApplyAll(ApplyChunk(st, c).value, rest)
  {
    assert ([c] + rest)[1..] == rest;
  }

  lemma FinishWritten(narrow: uint64 -> F32, format: Format, channels: int, rate: int, payload: seq<byte>)
    requires !format.FormatOther?
    ensures Finish(narrow, Scan(true, if format.FormatF32? then TAG_FLOAT else TAG_PCM, channels, rate,
                                format.BytesPerSample() * 8, true, payload))
         == var v := Validate(FormatS16, rate, channels);
            if v.Err? then Err(v.error) else Decoded(payload, format, rate, channels)
  {
    hide Decoded;
  }

  /** For every buffer whose data fits a chunk: reading back what WriteWAV wrote
      gives the same format, rate, channels and samples exactly when the buffer is
      whole frames and its channel count and rate fit their header fields. */
  lemma RoundTrip(narrow: uint64 -> F32, p: PCM)
    requires p.Valid() && |Encode(p)| < TWO32
    ensures var r := Parse(narrow, WavBytes(p));
      (r.Ok? && r.value.SameAudio(p)) <==> (p.WholeFrames() && p.channels < TWO16 && p.sampleRate < TWO32)
  {
    hide FmtPayload, Encode, Decoded, LE32, Parse, Finish, ApplyAll, Riff;
    var ch, rate := Trunc16(p.channels), Trunc32(p.sampleRate);
    WrittenFits(p);
    ParseChunks(narrow, BodySize(p), WavChunks(p));
    ScanWritten(p);
    FinishWritten(narrow, p.format, ch, rate, Encode(p));
    if ch > 0 && rate > 0 {
      DecodedShape(Encode(p), p.format, rate, ch);
      if ch == p.channels && rate == p.sampleRate {
        BytesRoundTrip(p);
      }
    }
  }

  lemma WrittenFits(p: PCM)
    requires |Encode(p)| < TWO32
    ensures forall i :: 0 <= i < |WavChunks(p)| ==> WavChunks(p)[i].Fits()
  {
    hide Encode, FmtPayload, LE32, Trunc32, Len;
    var fmt, fact, data := Chunk(FMT, FmtPayload(p.format, p.sampleRate, p.channels)),
      Chunk(FACT, LE32(Trunc32(Len(p)))), Chunk(DATA, Encode(p));
    assert WavChunks(p) == if p.format.FormatF32? then [fmt, fact, data] else [fmt, data];
    assert fmt.Fits() && data.Fits();
    assert fact.Fits();
  }

  lemma DecodedShape(b: seq<byte>, format: Format, sampleRate: int, channels: int)
    requires sampleRate > 0 && channels > 0 && !format.FormatOther?
    ensures var r := Decoded(b, format, sampleRate, channels);
      r.Ok? && r.value.sampleRate == sampleRate && r.value.channels == channels
  {
  }
}
