/** PCM buffers (audio/pcm.go, audio/format.go). */
module Pcm {
  import opened Bits
  import opened Float32
  import Arith

  datatype Error =
    | InvalidFormat | BadSampleRate | BadChannels
    | NotWav | ShortFmtChunk | NoFmtChunk | NoDataChunk | UnsupportedEncoding | UnsupportedDepth
    | WriterClosed

  datatype Result<+T> = Ok(value: T) | Err(error: Error)

  /** FormatOther stands for any tag outside the two that Valid accepts. */
  datatype Format = FormatS16 | FormatF32 | FormatOther {
    function BytesPerSample(): nat {
      match this
      case FormatS16 => 2
      case FormatF32 => 4
      case FormatOther => 0
    }
  }

  /** A value of the Go struct: exactly one of the two sample slices is meaningful. */
  datatype PCM = PCM(format: Format, sampleRate: int, channels: int, pts: int, s16: seq<int16>, f32: seq<F32>) {
    function NumSamples(): nat { if format.FormatF32? then |f32| else |s16| }

    predicate IsEmpty() { NumSamples() == 0 }

    /** Whole frames only: every channel has the same number of samples. */
    predicate WholeFrames() { channels > 0 && NumSamples() % channels == 0 }

    predicate Valid() { Validate(format, sampleRate, channels).Ok? }

    /** The samples as singles, which is what ToFloat32 yields. */
    function Float(): (r: seq<F32>)
      ensures |r| == NumSamples()
    {
      if format.FormatF32? then f32 else Widen(s16)
    }

    /** Same buffer up to its presentation timestamp and the unused slice. */
    predicate SameAudio(q: PCM) {
      && format == q.format && sampleRate == q.sampleRate && channels == q.channels
      && (if format.FormatF32? then f32 == q.f32 else s16 == q.s16)
    }
  }

  function Validate(format: Format, sampleRate: int, channels: int): Result<()> {
    if format.FormatOther? then Err(InvalidFormat)
    else if sampleRate <= 0 then Err(BadSampleRate)
    else if channels <= 0 then Err(BadChannels)
    else Ok(())
  }

  function Empty(format: Format, sampleRate: int, channels: int): PCM {
    PCM(format, sampleRate, channels, 0, [], [])
  }

  function Widen(s: seq<int16>): (r: seq<F32>)
    ensures |r| == |s|
  {
    seq(|s|, i requires 0 <= i < |s| => S16ToF32(s[i]))
  }

  function Narrow(s: seq<F32>): (r: seq<int16>)
    ensures |r| == |s|
  {
    seq(|s|, i requires 0 <= i < |s| => F32ToS16(s[i]))
  }

  lemma NarrowWiden(s: seq<int16>)
    ensures Narrow(Widen(s)) == s
  {
    forall i | 0 <= i < |s| ensures Narrow(Widen(s))[i] == s[i] {
      S16RoundTrip(s[i]);
    }
  }

  /** PCM.To on singles: the buffer FromFloat32(samples).To(format). */
  function OfFloat(samples: seq<F32>, format: Format, sampleRate: int, channels: int, pts: int): PCM {
    if format.FormatF32? then PCM(FormatF32, sampleRate, channels, pts, [], samples)
    else PCM(FormatS16, sampleRate, channels, pts, Narrow(samples), [])
  }

  /** PCM.ToFloat32. */
  method ToFloat32(p: PCM) returns (r: PCM)
    ensures r.format == FormatF32 && r.f32 == p.Float()
    ensures r.sampleRate == p.sampleRate && r.channels == p.channels && r.pts == p.pts
    ensures if p.format.FormatF32? then r == p else r.s16 == []
  {
    if p.format == FormatF32 {
      return p;
    }
    var out := new F32[|p.s16|];
    for i := 0 to |p.s16|
      invariant forall j :: 0 <= j < i ==> out[j] == S16ToF32(p.s16[j])
    {
      out[i] := S16ToF32(p.s16[i]);
    }
    r := p.(format := FormatF32, s16 := [], f32 := out[..]);
  }

  /** PCM.ToInt16. */
  method ToInt16(p: PCM) returns (r: PCM)
    ensures r.format == FormatS16 && r.s16 == (if p.format.FormatS16? then p.s16 else Narrow(p.f32))
    ensures r.sampleRate == p.sampleRate && r.channels == p.channels && r.pts == p.pts
    ensures if p.format.FormatS16? then r == p else r.f32 == []
  {
    if p.format == FormatS16 {
      return p;
    }
    var out := new int16[|p.f32|];
    for i := 0 to |p.f32|
      invariant forall j :: 0 <= j < i ==> out[j] == F32ToS16(p.f32[j])
    {
      out[i] := F32ToS16(p.f32[i]);
    }
    r := p.(format := FormatS16, f32 := [], s16 := out[..]);
  }

  // ---- byte encoding ----

  /** Width-2 encoding: byte j belongs to sample j / 2. */
  function EncodeS16(s: seq<int16>): (b: seq<byte>)
    ensures |b| == 2 * |s|
  {
    seq(2 * |s|, j requires 0 <= j < 2 * |s| => LE16(Trunc16(s[j / 2]))[j % 2])
  }

  function EncodeF32(s: seq<F32>): (b: seq<byte>)
    ensures |b| == 4 * |s|
  {
    seq(4 * |s|, j requires 0 <= j < 4 * |s| => LE32(s[j / 4])[j % 4])
  }

  function Encode(p: PCM): (b: seq<byte>)
    ensures |b| == p.NumSamples() * (if p.format.FormatF32? then 4 else 2)
  {
    if p.format.FormatF32? then EncodeF32(p.f32) else EncodeS16(p.s16)
  }

  function DecodeS16(b: seq<byte>): (s: seq<int16>)
    ensures |s| == |b| / 2
  {
    seq(|b| / 2, i requires 0 <= i < |b| / 2 => AsInt16(FromLE16(b[2 * i..2 * i + 2])))
  }

  function DecodeF32(b: seq<byte>): (s: seq<F32>)
    ensures |s| == |b| / 4
  {
    seq(|b| / 4, i requires 0 <= i < |b| / 4 => FromLE32(b[4 * i..4 * i + 4]))
  }

  /** The largest prefix made of whole frames of the given size. */
  function WholePrefix<T>(b: seq<T>, frame: nat): (r: seq<T>)
    requires frame > 0
    ensures |r| == |b| - |b| % frame
  {
    b[..|b| - |b| % frame]
  }

  lemma WholeFrames<T>(b: seq<T>, frame: nat)
    requires frame > 0
    ensures |b| / frame >= 0 && |WholePrefix(b, frame)| == |b| / frame * frame
  {
    Arith.DivMod(|b|, frame);
    Arith.DivLess(|b|, frame, 0);
  }

  lemma SampleBytesS16(s: seq<int16>, i: nat)
    requires i < |s|
    ensures EncodeS16(s)[2 * i..2 * i + 2] == LE16(Trunc16(s[i]))
  {
    var b := EncodeS16(s);
    assert (2 * i) / 2 == i && (2 * i + 1) / 2 == i;
    assert b[2 * i] == LE16(Trunc16(s[i]))[0] && b[2 * i + 1] == LE16(Trunc16(s[i]))[1];
  }

  lemma SampleBytesF32(s: seq<F32>, i: nat)
    requires i < |s|
    ensures EncodeF32(s)[4 * i..4 * i + 4] == LE32(s[i])
  {
    var b := EncodeF32(s);
    forall k | 0 <= k < 4 ensures b[4 * i + k] == LE32(s[i])[k] {
      assert (4 * i + k) / 4 == i && (4 * i + k) % 4 == k;
    }
  }

  lemma DecodeEncodeS16(s: seq<int16>)
    ensures DecodeS16(EncodeS16(s)) == s
  {
    forall i | 0 <= i < |s| ensures DecodeS16(EncodeS16(s))[i] == s[i] {
      SampleBytesS16(s, i);
      LE16Inverse(Trunc16(s[i]));
      assert AsInt16(Trunc16(s[i])) == s[i];
    }
  }

  lemma DecodeEncodeF32(s: seq<F32>)
    ensures DecodeF32(EncodeF32(s)) == s
  {
    forall i | 0 <= i < |s| ensures DecodeF32(EncodeF32(s))[i] == s[i] {
      SampleBytesF32(s, i);
      LE32Inverse(s[i]);
    }
  }

  lemma EncodeS16Concat(a: seq<int16>, b: seq<int16>)
    ensures EncodeS16(a + b) == EncodeS16(a) + EncodeS16(b)
  {
  }

  lemma EncodeF32Concat(a: seq<F32>, b: seq<F32>)
    ensures EncodeF32(a + b) == EncodeF32(a) + EncodeF32(b)
  {
  }

  lemma NarrowConcat(a: seq<F32>, b: seq<F32>)
    ensures Narrow(a + b) == Narrow(a) + Narrow(b)
  {
  }

  /** PCM.Bytes. */
  method Bytes(p: PCM) returns (b: seq<byte>)
    ensures b == Encode(p)
  {
    if p.format == FormatF32 {
      var out := new byte[4 * |p.f32|];
      for i := 0 to |p.f32|
        invariant forall j :: 0 <= j < 4 * i ==> out[j] == LE32(p.f32[j / 4])[j % 4]
      {
        var le := LE32(p.f32[i]);
        out[4 * i], out[4 * i + 1], out[4 * i + 2], out[4 * i + 3] := le[0], le[1], le[2], le[3];
      }
      b := out[..];
    } else {
      var out := new byte[2 * |p.s16|];
      for i := 0 to |p.s16|
        invariant forall j :: 0 <= j < 2 * i ==> out[j] == LE16(Trunc16(p.s16[j / 2]))[j % 2]
      {
        var le := LE16(Trunc16(p.s16[i]));
        out[2 * i], out[2 * i + 1] := le[0], le[1];
      }
      b := out[..];
    }
  }

  /** What FromBytes decodes: whole frames only, trailing bytes dropped. */
  function Decoded(b: seq<byte>, format: Format, sampleRate: int, channels: int): Result<PCM> {
    match Validate(format, sampleRate, channels)
    case Err(e) => Err(e)
    case Ok(_) =>
      var whole := WholePrefix(b, format.BytesPerSample() * channels);
      Ok(if format.FormatF32? then PCM(format, sampleRate, channels, 0, [], DecodeF32(whole))
         else PCM(format, sampleRate, channels, 0, DecodeS16(whole), []))
  }

  /** FromBytes. */
  method FromBytes(b: seq<byte>, format: Format, sampleRate: int, channels: int) returns (r: Result<PCM>)
    ensures r == Decoded(b, format, sampleRate, channels)
  {
    var v := Validate(format, sampleRate, channels);
    if v.Err? {
      return Err(v.error);
    }
    var whole := WholePrefix(b, format.BytesPerSample() * channels);
    if format == FormatS16 {
      var out := new int16[|whole| / 2];
      for i := 0 to |whole| / 2
        invariant forall j :: 0 <= j < i ==> out[j] == DecodeS16(whole)[j]
      {
        out[i] := AsInt16(FromLE16(whole[2 * i..2 * i + 2]));
      }
      assert out[..] == DecodeS16(whole);
      r := Ok(PCM(format, sampleRate, channels, 0, out[..], []));
    } else {
      var out := new F32[|whole| / 4];
      for i := 0 to |whole| / 4
        invariant forall j :: 0 <= j < i ==> out[j] == DecodeF32(whole)[j]
      {
        out[i] := FromLE32(whole[4 * i..4 * i + 4]);
      }
      assert out[..] == DecodeF32(whole);
      r := Ok(PCM(format, sampleRate, channels, 0, [], out[..]));
    }
  }

  /** Decoding the bytes of a whole-frame buffer gives the buffer back; a buffer
      that ends inside a frame comes back shorter. */
  lemma BytesRoundTrip(p: PCM)
    requires p.Valid()
    ensures var r := Decoded(Encode(p), p.format, p.sampleRate, p.channels);
            r.Ok? && (r.value.SameAudio(p) <==> p.WholeFrames())
  {
    var w := p.format.BytesPerSample();
    var n, c := p.NumSamples(), p.channels;
    var b := Encode(p);
    Arith.DivMod(n, c);
    Arith.MulAssoc(n / c, c, w);
    Arith.Distribute(n / c * c, n % c, w);
    Arith.CancelLess(n % c, c, w);
    Arith.DivUnique(n * w, c * w, n / c, n % c * w);
    var whole := WholePrefix(b, w * c);
    if n % c == 0 {
      assert whole == b;
      if p.format.FormatF32? { DecodeEncodeF32(p.f32); } else { DecodeEncodeS16(p.s16); }
    }
  }
}
