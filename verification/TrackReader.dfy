/** Receiving an RTP audio track (audio/rtc/reader.go): 16-bit sequence numbers and
    32-bit timestamps, proved to follow the sender's unbounded packet numbers. */
module TrackReader {
  import opened Bits
  import opened Arith

  const SECOND := 1_000_000_000

  /** conceal, maxConceal, clockRate, and the ticks of one decoder frame. */
  datatype Config = Config(conceal: bool, maxConceal: nat, clockRate: uint32, frameTicks: uint32) {
    predicate Valid() { maxConceal >= 1 && clockRate > 0 }
  }

  /** What the decoder makes of a packet's payload. */
  datatype Decoded = Frame | NoAudio | Malformed

  /** A packet; concealable is how many calls of Conceal in a row succeed for it. */
  datatype Packet = Packet(seqno: uint16, timestamp: uint32, decoded: Decoded, concealable: nat)

  /** A buffer handed on: decoded or concealed, with its presentation time. */
  datatype Buffer = Buffer(concealed: bool, pts: int)

  /** The reader's fields, all buffers it has produced, the sequence numbers it has
      handed to the decoder, and how often it reset it. */
  datatype Reader = Reader(
    haveBase: bool, base: uint32, haveSeq: bool, expected: uint16,
    out: seq<Buffer>, fed: seq<uint16>, resets: nat)

  const FRESH := Reader(false, 0, false, 0, [], [], 0)

  /** ptsOf: at most (2^32 - 1) * 10^9, so the int64 product does not overflow. */
  function PtsOf(cfg: Config, base: uint32, timestamp: uint32): int
    requires cfg.Valid()
  {
    Trunc32(timestamp - base) * SECOND / cfg.clockRate
  }

  lemma PtsFits(cfg: Config, base: uint32, timestamp: uint32)
    requires cfg.Valid()
    ensures 0 <= Trunc32(timestamp - base) * SECOND < TWO63
  {
  }

  /** The i-th concealed buffer of a gap of n frames ending just before timestamp. */
  function Filler(cfg: Config, base: uint32, n: nat, timestamp: uint32, i: nat): Buffer
    requires cfg.Valid() && i < n
  {
    Buffer(true, PtsOf(cfg, base, Trunc32(timestamp - (n - i) * cfg.frameTicks)))
  }

  function Fillers(cfg: Config, base: uint32, n: nat, timestamp: uint32, k: nat): (f: seq<Buffer>)
    requires cfg.Valid() && k <= n
    ensures |f| == k
  {
    seq(k, i requires 0 <= i < k => Filler(cfg, base, n, timestamp, i))
  }

  lemma FillersStep(cfg: Config, base: uint32, n: nat, timestamp: uint32, k: nat)
    requires cfg.Valid() && k < n
    ensures Fillers(cfg, base, n, timestamp, k + 1) ==
      Fillers(cfg, base, n, timestamp, k)
      + [Buffer(true, PtsOf(cfg, base, Trunc32(timestamp - (n - k) * cfg.frameTicks)))]
  {
    hide PtsOf, Trunc32;
  }

  /** concealGap. */
  function ConcealGap(cfg: Config, r: Reader, count: nat, pkt: Packet): Reader
    requires cfg.Valid()
  {
    if !cfg.conceal then r
    else
      var n := Min(count, cfg.maxConceal);
      r.(resets := if count > cfg.maxConceal then r.resets + 1 else r.resets,
         out := r.out + Fillers(cfg, r.base, n, pkt.timestamp, Min(n, pkt.concealable)))
  }

  /** handle; the flag is whether it returns the decoder's error. */
  function Handle(cfg: Config, r: Reader, pkt: Packet): (Reader, bool)
    requires cfg.Valid()
  {
    var r1 := if r.haveBase then r else r.(base := pkt.timestamp, haveBase := true);
    var gap := Trunc16(pkt.seqno - r1.expected);
    if r1.haveSeq && gap > TWO15 then (r1, false)
    else
      var r2 := if r1.haveSeq && gap > 0 then ConcealGap(cfg, r1, gap, pkt) else r1;
      var r3 := r2.(expected := Trunc16(pkt.seqno + 1), haveSeq := true, fed := r2.fed + [pkt.seqno]);
      match pkt.decoded
      case Malformed => if cfg.conceal then (ConcealGap(cfg, r3, 1, pkt), false) else (r3, true)
      case NoAudio => (r3, false)
      case Frame => (r3.(out := r3.out + [Buffer(false, PtsOf(cfg, r3.base, pkt.timestamp))]), false)
  }

  // ---- the sender's numbering ----

  /** A packet with its place in the sender's unbounded numbering. */
  datatype Numbered = Numbered(pkt: Packet, number: int)

  /** Where the stream stands: the number of the first packet and the next expected. */
  datatype Progress = NotBegun | Begun(first: int, next: int)

  /** An output frame: which packet it stands for, and whether it was concealed. */
  datatype Item = Item(number: int, concealed: bool)

  /** Numbers from..from + k, concealed. */
  function Missing(from: int, k: nat): (s: seq<Item>)
    ensures |s| == k
  {
    seq(k, i requires 0 <= i < k => Item(from + i, true))
  }

  /** The frames concealed before a packet: those missing, up to the cap. */
  function Fill(cfg: Config, p: Progress, number: int): seq<Item> {
    if p.NotBegun? || number < p.next || !cfg.conceal then []
    else
      var n := Min(number - p.next, cfg.maxConceal);
      Missing(number - n, n)
  }

  /** A packet's own frame. A malformed one is concealed in the place before its own. */
  function Own(cfg: Config, x: Numbered): seq<Item> {
    match x.pkt.decoded
    case Frame => [Item(x.number, false)]
    case NoAudio => []
    case Malformed => if cfg.conceal then [Item(x.number - 1, true)] else []
  }

  /** What a packet adds: nothing if it is older than expected. */
  function Adds(cfg: Config, p: Progress, x: Numbered): seq<Item> {
    if Takes(p, x.number) then Fill(cfg, p, x.number) + Own(cfg, x) else []
  }

  function Advance(p: Progress, number: int): Progress {
    if p.NotBegun? then Begun(number, number + 1)
    else if number < p.next then p
    else p.(next := number + 1)
  }

  predicate Takes(p: Progress, number: int) { p.NotBegun? || number >= p.next }

  /** Within half the sequence ring of what is expected. */
  predicate InWindow(p: Progress, number: int) { p.Begun? ==> -TWO15 < number - p.next <= TWO15 }

  predicate Follows(r: Reader, p: Progress) {
    && r.haveSeq == p.Begun? && r.haveBase == p.Begun?
    && (p.Begun? ==> r.expected == Trunc16(p.next) && p.first < p.next)
  }

  lemma RingGap(a: int, b: int)
    requires -TWO15 < a - b <= TWO15
    ensures Trunc16(Trunc16(a) - Trunc16(b)) == if a >= b then a - b else a - b + TWO16
  {
  }

  /** Sequence numbers: a packet within the window is taken exactly when it is not
      older than expected, and moves expectation just past itself, whatever the
      decoder does; an older one changes nothing. */
  lemma NumbersFollow(cfg: Config, r: Reader, p: Progress, x: Numbered)
    requires cfg.Valid() && Follows(r, p) && InWindow(p, x.number) && x.pkt.seqno == Trunc16(x.number)
    ensures Follows(Handle(cfg, r, x.pkt).0, Advance(p, x.number))
    ensures p.Begun? && x.number < p.next ==> Handle(cfg, r, x.pkt) == (r, false)
    ensures Handle(cfg, r, x.pkt).0.fed == r.fed + (if Takes(p, x.number) then [x.pkt.seqno] else [])
  {
    hide Fillers;
    if p.Begun? {
      RingGap(x.number, p.next);
    }
    assert Trunc16(Trunc16(x.number) + 1) == Trunc16(x.number + 1);
    assert r.fed + [] == r.fed;
  }

  /** What the decoder makes of the packet itself. */
  function OwnBuffer(cfg: Config, base: uint32, pkt: Packet): seq<Buffer>
    requires cfg.Valid()
  {
    match pkt.decoded
    case Frame => [Buffer(false, PtsOf(cfg, base, pkt.timestamp))]
    case NoAudio => []
    case Malformed =>
      if cfg.conceal then [Buffer(true, PtsOf(cfg, base, Trunc32(pkt.timestamp - cfg.frameTicks)))] else []
  }

  /** A packet that is taken adds its fillers and then its own buffer. */
  lemma HandleOut(cfg: Config, r: Reader, p: Progress, x: Numbered)
    requires cfg.Valid() && cfg.conceal && Follows(r, p) && p.Begun? && InWindow(p, x.number)
    requires x.number >= p.next && x.pkt.seqno == Trunc16(x.number) && x.pkt.concealable >= cfg.maxConceal
    ensures var n := Min(x.number - p.next, cfg.maxConceal);
      var r' := Handle(cfg, r, x.pkt).0;
      && r'.out == r.out + Fillers(cfg, r.base, n, x.pkt.timestamp, n) + OwnBuffer(cfg, r.base, x.pkt)
      && (r'.resets > r.resets <==> x.number - p.next > cfg.maxConceal)
  {
    hide PtsOf, Trunc32, Fillers;
    RingGap(x.number, p.next);
    OneFiller(cfg, r.base, x.pkt.timestamp);
    var n := Min(x.number - p.next, cfg.maxConceal);
    var fill := Fillers(cfg, r.base, n, x.pkt.timestamp, n);
    if n == 0 { assert r.out + fill == r.out; }
    assert r.out + fill + [] == r.out + fill;
  }

  /** Whatever the decoder makes of it, a packet that ends a gap is preceded by exactly
      min(gap, maxConceal) concealed buffers, whose times lead up to its timestamp one
      frame at a time; the decoder is reset if and only if the gap exceeds the cap. */
  lemma GapFilled(cfg: Config, r: Reader, p: Progress, x: Numbered)
    requires cfg.Valid() && cfg.conceal && Follows(r, p) && p.Begun? && InWindow(p, x.number)
    requires x.number >= p.next && x.pkt.seqno == Trunc16(x.number) && x.pkt.concealable >= cfg.maxConceal
    ensures var n, k := Min(x.number - p.next, cfg.maxConceal), |r.out|;
      var r' := Handle(cfg, r, x.pkt).0;
      && k + n <= |r'.out| && r'.out[..k] == r.out && r'.out[k + n..] == OwnBuffer(cfg, r.base, x.pkt)
      && (var fill := r'.out[k..k + n];
          forall i :: 0 <= i < n ==>
            fill[i] == Buffer(true, PtsOf(cfg, r.base, Trunc32(x.pkt.timestamp - (n - i) * cfg.frameTicks))))
      && (r'.resets > r.resets <==> x.number - p.next > cfg.maxConceal)
  {
    hide PtsOf, Trunc32, Handle, OwnBuffer;
    HandleOut(cfg, r, p, x);
    var n := Min(x.number - p.next, cfg.maxConceal);
    var out, fill := Handle(cfg, r, x.pkt).0.out, Fillers(cfg, r.base, n, x.pkt.timestamp, n);
    assert out[|r.out|..|r.out| + n] == fill;
    assert forall i :: 0 <= i < n ==> fill[i] == Filler(cfg, r.base, n, x.pkt.timestamp, i);
  }

  /** Where the decoder can conceal only so many frames, only the first so many of the gap
      are concealed. */
  lemma GapCutShort(cfg: Config, r: Reader, p: Progress, x: Numbered)
    requires cfg.Valid() && cfg.conceal && Follows(r, p) && p.Begun? && InWindow(p, x.number)
    requires x.number >= p.next && x.pkt.seqno == Trunc16(x.number) && x.pkt.decoded != Malformed
    ensures var n := Min(x.number - p.next, cfg.maxConceal); var k := Min(n, x.pkt.concealable);
      Handle(cfg, r, x.pkt).0.out
      == r.out + Fillers(cfg, r.base, n, x.pkt.timestamp, k) + OwnBuffer(cfg, r.base, x.pkt)
  {
    hide PtsOf, Trunc32, Fillers;
    RingGap(x.number, p.next);
    var n := Min(x.number - p.next, cfg.maxConceal);
    var k := Min(n, x.pkt.concealable);
    var fill := Fillers(cfg, r.base, n, x.pkt.timestamp, k);
    if n == 0 { assert r.out + fill == r.out; }
    assert r.out + fill + [] == r.out + fill;
  }

  /** An error is returned if and only if a packet that is taken is malformed and nothing
      is concealed. */
  lemma ErrorIff(cfg: Config, r: Reader, p: Progress, x: Numbered)
    requires cfg.Valid() && Follows(r, p) && InWindow(p, x.number) && x.pkt.seqno == Trunc16(x.number)
    ensures Handle(cfg, r, x.pkt).1 <==> Takes(p, x.number) && x.pkt.decoded == Malformed && !cfg.conceal
  {
    hide Fillers, PtsOf;
    if p.Begun? { RingGap(x.number, p.next); }
  }

  lemma OneFiller(cfg: Config, base: uint32, timestamp: uint32)
    requires cfg.Valid()
    ensures Fillers(cfg, base, 1, timestamp, 1) == [Buffer(true, PtsOf(cfg, base, Trunc32(timestamp - cfg.frameTicks)))]
  {
  }

  // ---- presentation times on a constant-tick stream ----

  /** Elapsed ticks of a numbered frame. */
  function Elapsed(cfg: Config, p: Progress, number: int): int
    requires p.Begun?
  {
    (number - p.first) * cfg.frameTicks
  }

  /** The packet's timestamp is its number's, and concealment works. */
  predicate Steady(cfg: Config, base: uint32, p: Progress, x: Numbered)
    requires p.Begun?
  {
    && x.pkt.timestamp == Trunc32(base + Elapsed(cfg, p, x.number))
    && x.pkt.concealable >= cfg.maxConceal
  }

  function Render(cfg: Config, p: Progress, item: Item): Buffer
    requires cfg.Valid() && p.Begun?
  {
    Buffer(item.concealed, Trunc32(Elapsed(cfg, p, item.number)) * SECOND / cfg.clockRate)
  }

  function RenderAll(cfg: Config, p: Progress, items: seq<Item>): (out: seq<Buffer>)
    requires cfg.Valid() && p.Begun?
    ensures |out| == |items|
  {
    seq(|items|, i requires 0 <= i < |items| => Render(cfg, p, items[i]))
  }

  lemma FillerRender(cfg: Config, base: uint32, p: Progress, x: Numbered, n: nat, i: nat)
    requires cfg.Valid() && p.Begun? && Steady(cfg, base, p, x) && i < n
    ensures Filler(cfg, base, n, x.pkt.timestamp, i) == Render(cfg, p, Item(x.number - n + i, true))
  {
    hide Trunc32;
    var e, d := Elapsed(cfg, p, x.number), (n - i) * cfg.frameTicks;
    Distribute(x.number - p.first, n - i, cfg.frameTicks);
    TruncSub(base + e, d);
    assert Trunc32(x.pkt.timestamp - d) == Trunc32(base + e - d) by { TruncShift(base + e, -d); }
    TruncShift(base + e - d, -(base as int));
  }

  lemma TruncShift(a: int, d: int)
    ensures Trunc32(Trunc32(a) + d) == Trunc32(a + d)
  {
  }

  /** One packet of a constant-tick stream adds exactly its items, each at its own
      number's time, whatever the decoder makes of it. */
  lemma SteadyStep(cfg: Config, r: Reader, p: Progress, x: Numbered)
    requires cfg.Valid() && Follows(r, p) && p.Begun? && InWindow(p, x.number) && x.pkt.seqno == Trunc16(x.number)
    requires Steady(cfg, r.base, p, x)
    ensures Handle(cfg, r, x.pkt).0.out == r.out + RenderAll(cfg, p, Adds(cfg, p, x))
    ensures Handle(cfg, r, x.pkt).0.base == r.base
  {
    hide Trunc32, Render, PtsOf;
    RingGap(x.number, p.next);
    if x.number >= p.next {
      var fill := Fill(cfg, p, x.number);
      var n := |fill|;
      var fillers := Fillers(cfg, r.base, n, x.pkt.timestamp, n);
      forall i | 0 <= i < n ensures fillers[i] == Render(cfg, p, fill[i]) {
        FillerRender(cfg, r.base, p, x, n, i);
      }
      assert RenderAll(cfg, p, fill) == fillers;
      OwnRender(cfg, r.base, p, x);
      RenderConcat(cfg, p, fill, Own(cfg, x));
      OneFiller(cfg, r.base, x.pkt.timestamp);
      var own := OwnBuffer(cfg, r.base, x.pkt);
      assert r.out + (fillers + own) == (r.out + fillers) + own;
      if n == 0 { assert r.out + fillers == r.out; }
      if own == [] { assert (r.out + fillers) + own == r.out + fillers; }
    } else {
      assert r.out + [] == r.out;
    }
  }

  lemma OwnRender(cfg: Config, base: uint32, p: Progress, x: Numbered)
    requires cfg.Valid() && p.Begun? && Steady(cfg, base, p, x)
    ensures OwnBuffer(cfg, base, x.pkt) == RenderAll(cfg, p, Own(cfg, x))
  {
    hide Trunc32;
    TruncShift(base + Elapsed(cfg, p, x.number), -(base as int));
    FillerRender(cfg, base, p, x, 1, 0);
  }

  // ---- runs ----

  function Run(cfg: Config, r: Reader, xs: seq<Numbered>): Reader
    requires cfg.Valid()
    decreases |xs|
  {
    if xs == [] then r else Run(cfg, Handle(cfg, r, xs[0].pkt).0, xs[1..])
  }

  /** The numbers taken, in order. */
  function Taken(p: Progress, xs: seq<Numbered>): seq<int>
    decreases |xs|
  {
    if xs == [] then []
    else (if Takes(p, xs[0].number) then [xs[0].number] else []) + Taken(Advance(p, xs[0].number), xs[1..])
  }

  predicate AllInWindow(p: Progress, xs: seq<Numbered>)
    decreases |xs|
  {
    xs == [] ||
    (&& InWindow(p, xs[0].number) && xs[0].pkt.seqno == Trunc16(xs[0].number)
     && AllInWindow(Advance(p, xs[0].number), xs[1..]))
  }

  function Wrapped(numbers: seq<int>): (s: seq<uint16>)
    ensures |s| == |numbers|
  {
    seq(|numbers|, i requires 0 <= i < |numbers| => Trunc16(numbers[i]))
  }

  lemma WrappedConcat(a: seq<int>, b: seq<int>)
    ensures Wrapped(a + b) == Wrapped(a) + Wrapped(b)
  {
  }

  /** Over any run within the window, with any decode errors: the decoder sees
      exactly the numbers taken, in order. */
  lemma {:induction false} FedFollows(cfg: Config, r: Reader, p: Progress, xs: seq<Numbered>)
    requires cfg.Valid() && Follows(r, p) && AllInWindow(p, xs)
    ensures Run(cfg, r, xs).fed == r.fed + Wrapped(Taken(p, xs))
    decreases |xs|
  {
    hide Handle, Wrapped;
    if xs == [] {
      assert Wrapped([]) == [];
      assert r.fed + [] == r.fed;
    } else {
      var x := xs[0];
      NumbersFollow(cfg, r, p, x);
      var r', p' := Handle(cfg, r, x.pkt).0, Advance(p, x.number);
      FedFollows(cfg, r', p', xs[1..]);
      var first := if Takes(p, x.number) then [x.number] else [];
      WrappedConcat(first, Taken(p', xs[1..]));
      WrappedShort(x.number);
      var later := Wrapped(Taken(p', xs[1..]));
      assert (r.fed + Wrapped(first)) + later == r.fed + (Wrapped(first) + later);
    }
  }

  lemma WrappedShort(n: int)
    ensures Wrapped([n]) == [Trunc16(n)] && Wrapped([]) == []
  {
  }

  /** Each number is taken at most once, and in increasing order. */
  lemma {:induction false} TakenIncreases(p: Progress, xs: seq<Numbered>, i: nat, j: nat)
    requires i < j < |Taken(p, xs)|
    ensures Taken(p, xs)[i] < Taken(p, xs)[j]
    decreases |xs|
  {
    var p' := Advance(p, xs[0].number);
    if !Takes(p, xs[0].number) {
      TakenIncreases(p', xs[1..], i, j);
    } else if i > 0 {
      TakenIncreases(p', xs[1..], i - 1, j - 1);
    } else {
      TakenFrom(p', xs[1..], j - 1);
    }
  }

  lemma {:induction false} TakenFrom(p: Progress, xs: seq<Numbered>, i: nat)
    requires p.Begun? && i < |Taken(p, xs)|
    ensures Taken(p, xs)[i] >= p.next
    decreases |xs|
  {
    if !Takes(p, xs[0].number) {
      TakenFrom(Advance(p, xs[0].number), xs[1..], i);
    } else if i > 0 {
      TakenFrom(Advance(p, xs[0].number), xs[1..], i - 1);
    }
  }

  // ---- constant-tick runs ----

  /** The output items of a run. */
  function Items(cfg: Config, p: Progress, xs: seq<Numbered>): seq<Item>
    decreases |xs|
  {
    if xs == [] then [] else Adds(cfg, p, xs[0]) + Items(cfg, Advance(p, xs[0].number), xs[1..])
  }

  ghost predicate AllSteady(cfg: Config, base: uint32, p: Progress, xs: seq<Numbered>)
    requires p.Begun?
  {
    forall i :: 0 <= i < |xs| ==> Steady(cfg, base, p, xs[i])
  }

  ghost predicate AllFrames(xs: seq<Numbered>) { forall i :: 0 <= i < |xs| ==> xs[i].pkt.decoded == Frame }

  lemma RenderConcat(cfg: Config, p: Progress, a: seq<Item>, b: seq<Item>)
    requires cfg.Valid() && p.Begun?
    ensures RenderAll(cfg, p, a + b) == RenderAll(cfg, p, a) + RenderAll(cfg, p, b)
  {
  }

  lemma SameFirst(cfg: Config, p: Progress, q: Progress, items: seq<Item>)
    requires cfg.Valid() && p.Begun? && q.Begun? && p.first == q.first
    ensures RenderAll(cfg, p, items) == RenderAll(cfg, q, items)
  {
  }

  /** On a constant-tick stream the output is exactly the items of the sender's
      numbering, each at its own number's time, with any decode errors. */
  lemma {:induction false} SteadyRun(cfg: Config, r: Reader, p: Progress, xs: seq<Numbered>)
    requires cfg.Valid() && p.Begun? && Follows(r, p) && AllInWindow(p, xs) && AllSteady(cfg, r.base, p, xs)
    ensures Run(cfg, r, xs).out == r.out + RenderAll(cfg, p, Items(cfg, p, xs))
    decreases |xs|
  {
    hide Handle, RenderAll, Adds, Steady;
    if xs == [] {
      assert RenderAll(cfg, p, []) == [];
      assert r.out + [] == r.out;
    } else {
      var x := xs[0];
      NumbersFollow(cfg, r, p, x);
      SteadyStep(cfg, r, p, x);
      var r', p' := Handle(cfg, r, x.pkt).0, Advance(p, x.number);
      forall i | 0 <= i < |xs[1..]| ensures Steady(cfg, r'.base, p', xs[1..][i]) {
        assert Steady(cfg, r.base, p, xs[i + 1]);
        SteadySame(cfg, r.base, p, p', xs[i + 1]);
      }
      SteadyRun(cfg, r', p', xs[1..]);
      var now, later := Adds(cfg, p, x), Items(cfg, p', xs[1..]);
      SameFirst(cfg, p, p', later);
      RenderConcat(cfg, p, now, later);
      var a, b := RenderAll(cfg, p, now), RenderAll(cfg, p, later);
      assert (r.out + a) + b == r.out + (a + b);
    }
  }

  lemma SteadySame(cfg: Config, base: uint32, p: Progress, q: Progress, x: Numbered)
    requires p.Begun? && q.Begun? && p.first == q.first
    ensures Steady(cfg, base, p, x) == Steady(cfg, base, q, x)
  {
  }

  /** Where the items of a run may begin: past everything already taken, or at the
      first missing frame the cap lets through. */
  lemma {:induction false} ItemsOrdered(cfg: Config, p: Progress, xs: seq<Numbered>, i: nat)
    requires cfg.Valid() && p.Begun? && i < |Items(cfg, p, xs)| && AllFrames(xs)
    ensures Items(cfg, p, xs)[i].number >= p.next
    ensures i > 0 ==> Items(cfg, p, xs)[i - 1].number < Items(cfg, p, xs)[i].number
    ensures GapsWithinCap(cfg, p, xs) ==> Items(cfg, p, xs)[i].number == p.next + i
    decreases |xs|
  {
    var now, p' := Adds(cfg, p, xs[0]), Advance(p, xs[0].number);
    if i >= |now| {
      ItemsOrdered(cfg, p', xs[1..], i - |now|);
    }
  }

  /** Every gap is concealed in full. */
  predicate GapsWithinCap(cfg: Config, p: Progress, xs: seq<Numbered>)
    requires p.Begun?
    decreases |xs|
  {
    xs == [] ||
    (&& (xs[0].number > p.next ==> cfg.conceal && xs[0].number - p.next <= cfg.maxConceal)
     && GapsWithinCap(cfg, Advance(p, xs[0].number), xs[1..]))
  }

  // ---- exact times ----

  /** A frame's time is exact until 2^32 ticks have passed, and never after. */
  lemma PtsExactIff(cfg: Config, p: Progress, item: Item)
    requires cfg.Valid() && p.Begun? && item.number >= p.first
    ensures Render(cfg, p, item).pts == Elapsed(cfg, p, item.number) * SECOND / cfg.clockRate
            <==> Elapsed(cfg, p, item.number) < TWO32
  {
    var e := Elapsed(cfg, p, item.number);
    MulLe(0, item.number - p.first, cfg.frameTicks);
    WrappedTime(e, cfg.clockRate);
  }

  lemma WrappedTime(e: nat, rate: uint32)
    requires rate > 0
    ensures Trunc32(e) * SECOND / rate == e * SECOND / rate <==> e < TWO32
  {
    if e >= TWO32 {
      var w := Trunc32(e) * SECOND;
      assert w + rate <= e * SECOND;
      DivAddMultiple(1, w, rate);
      DivLess(e * SECOND, rate, w / rate + 1);
      DivLess(w + rate, rate, w / rate + 1);
    } else {
      assert Trunc32(e) == e;
    }
  }

  /** Later frames have later times while both are within the 32-bit range and a
      frame lasts at least a nanosecond. */
  lemma PtsIncreases(cfg: Config, p: Progress, a: Item, b: Item)
    requires cfg.Valid() && p.Begun? && cfg.frameTicks * SECOND >= cfg.clockRate
    requires p.first <= a.number < b.number && Elapsed(cfg, p, b.number) < TWO32
    ensures Render(cfg, p, a).pts < Render(cfg, p, b).pts
  {
    var x, y := Elapsed(cfg, p, a.number), Elapsed(cfg, p, b.number);
    MulLe(0, a.number - p.first, cfg.frameTicks);
    MulLe(a.number - p.first + 1, b.number - p.first, cfg.frameTicks);
    MulSucc(a.number - p.first, cfg.frameTicks);
    assert x + cfg.frameTicks <= y;
    StepInTime(x, y, cfg.frameTicks, cfg.clockRate);
  }

  lemma StepInTime(x: nat, y: nat, ticks: uint32, rate: uint32)
    requires rate > 0 && x + ticks <= y < TWO32 && ticks * SECOND >= rate
    ensures Trunc32(x) * SECOND / rate < Trunc32(y) * SECOND / rate
  {
    hide Trunc32;
    assert Trunc32(x) == x && Trunc32(y) == y by { Small(x); Small(y); }
    var a, b := x * SECOND, y * SECOND;
    assert a + rate <= b;
    DivAddMultiple(1, a, rate);
    DivLess(b, rate, a / rate + 1);
    DivLess(a + rate, rate, a / rate + 1);
  }

  lemma Small(x: nat)
    requires x < TWO32
    ensures Trunc32(x) == x
  {
  }

  /** The items of a whole stream: its first packet's, then the rest of the run's. */
  function StreamItems(cfg: Config, x: Numbered, xs: seq<Numbered>): seq<Item> {
    Own(cfg, x) + Items(cfg, Begun(x.number, x.number + 1), xs)
  }

  /** A constant-tick stream from its first packet on. */
  ghost predicate SteadyStream(cfg: Config, x: Numbered, xs: seq<Numbered>) {
    && cfg.Valid() && AllInWindow(NotBegun, [x] + xs) && x.pkt.concealable >= 1
    && AllSteady(cfg, x.pkt.timestamp, Begun(x.number, x.number + 1), xs)
  }

  lemma StreamOut(cfg: Config, x: Numbered, xs: seq<Numbered>)
    requires SteadyStream(cfg, x, xs)
    ensures Run(cfg, FRESH, [x] + xs).out == RenderAll(cfg, Begun(x.number, x.number + 1), StreamItems(cfg, x, xs))
  {
    var p := Begun(x.number, x.number + 1);
    assert ([x] + xs)[0] == x && ([x] + xs)[1..] == xs;
    FirstPacket(cfg, x);
    hide Handle, Steady, RenderAll, Render, Own;
    SteadyRun(cfg, Handle(cfg, FRESH, x.pkt).0, p, xs);
    RenderConcat(cfg, p, Own(cfg, x), Items(cfg, p, xs));
  }

  /** A stream without decode errors: buffers come out in the order of the sender's
      numbers, times strictly increase while the stream is within 2^32 ticks, and if no
      gap exceeds the cap there is a buffer for every number. */
  lemma CleanStream(cfg: Config, x: Numbered, xs: seq<Numbered>, i: nat, j: nat)
    requires SteadyStream(cfg, x, xs) && cfg.frameTicks * SECOND >= cfg.clockRate
    requires x.pkt.decoded == Frame && AllFrames(xs)
    requires i < j < |StreamItems(cfg, x, xs)|
    requires Elapsed(cfg, Begun(x.number, x.number + 1), StreamItems(cfg, x, xs)[j].number) < TWO32
    ensures var out := Run(cfg, FRESH, [x] + xs).out; var items := StreamItems(cfg, x, xs);
      && out == RenderAll(cfg, Begun(x.number, x.number + 1), items)
      && out[i].pts < out[j].pts
      && (GapsWithinCap(cfg, Begun(x.number, x.number + 1), xs) ==> items[j].number == x.number + j)
  {
    var p := Begun(x.number, x.number + 1);
    var items := StreamItems(cfg, x, xs);
    StreamOut(cfg, x, xs);
    hide SteadyStream, RenderAll, Render, Items;
    ItemsIncrease(cfg, p, x, xs, i, j);
    PtsIncreases(cfg, p, items[i], items[j]);
    RenderAt(cfg, p, items, i);
    RenderAt(cfg, p, items, j);
    ItemsOrdered(cfg, p, xs, j - 1);
  }

  lemma RenderAt(cfg: Config, p: Progress, items: seq<Item>, i: nat)
    requires cfg.Valid() && p.Begun? && i < |items|
    ensures RenderAll(cfg, p, items)[i] == Render(cfg, p, items[i])
  {
  }

  lemma FirstOut(cfg: Config, pkt: Packet)
    requires cfg.Valid() && pkt.concealable >= 1
    ensures var r := Handle(cfg, FRESH, pkt).0; r.base == pkt.timestamp && r.out == OwnBuffer(cfg, pkt.timestamp, pkt)
  {
    hide PtsOf, Trunc32, Fillers;
    OneFiller(cfg, pkt.timestamp, pkt.timestamp);
  }

  lemma FirstPacket(cfg: Config, x: Numbered)
    requires cfg.Valid() && x.pkt.seqno == Trunc16(x.number) && x.pkt.concealable >= 1
    ensures var r := Handle(cfg, FRESH, x.pkt).0; var p := Begun(x.number, x.number + 1);
      Follows(r, p) && r.base == x.pkt.timestamp && r.out == RenderAll(cfg, p, Own(cfg, x))
  {
    hide Handle, OwnBuffer, RenderAll, Own;
    var p := Begun(x.number, x.number + 1);
    var steady := x.(pkt := x.pkt.(concealable := cfg.maxConceal));
    NumbersFollow(cfg, FRESH, NotBegun, x);
    FirstOut(cfg, x.pkt);
    MulZero(cfg.frameTicks);
    Small(x.pkt.timestamp);
    OwnRender(cfg, x.pkt.timestamp, p, steady);
    SameOwn(cfg, x, steady);
  }

  lemma SameOwn(cfg: Config, x: Numbered, y: Numbered)
    requires cfg.Valid() && x.number == y.number && x.pkt == y.pkt.(concealable := x.pkt.concealable)
    ensures Own(cfg, x) == Own(cfg, y) && forall base :: OwnBuffer(cfg, base, x.pkt) == OwnBuffer(cfg, base, y.pkt)
  {
  }

  lemma {:induction false} ItemsIncrease(cfg: Config, p: Progress, x: Numbered, xs: seq<Numbered>, i: nat, j: nat)
    requires cfg.Valid() && p == Begun(x.number, x.number + 1) && i < j < |StreamItems(cfg, x, xs)|
    requires x.pkt.decoded == Frame && AllFrames(xs)
    ensures StreamItems(cfg, x, xs)[i].number < StreamItems(cfg, x, xs)[j].number
    ensures StreamItems(cfg, x, xs)[i].number >= p.first
    decreases j
  {
    ItemsOrdered(cfg, p, xs, j - 1);
    if i < j - 1 {
      ItemsIncrease(cfg, p, x, xs, i, j - 1);
    } else if i > 0 {
      ItemsOrdered(cfg, p, xs, i - 1);
    }
  }

  // ---- malformed packets ----

  /** No malformed packet is concealed where a frame already stands: it neither ends a
      gap, which is concealed up to the place before it, nor follows a packet that was
      heard. */
  predicate NoClash(cfg: Config, p: Progress, heard: bool, xs: seq<Numbered>)
    requires p.Begun?
    decreases |xs|
  {
    if xs == [] then true
    else if xs[0].number < p.next then NoClash(cfg, p, heard, xs[1..])
    else
      && !(xs[0].pkt.decoded == Malformed && (xs[0].number > p.next || heard))
      && NoClash(cfg, Advance(p, xs[0].number), xs[0].pkt.decoded == Frame, xs[1..])
  }

  /** Where no packet decodes to silence, that says that none is malformed. */
  lemma {:induction false} NoClashMeansFrames(cfg: Config, p: Progress, xs: seq<Numbered>)
    requires p.Begun? && forall i :: 0 <= i < |xs| ==> xs[i].pkt.decoded != NoAudio
    ensures NoClash(cfg, p, true, xs) <==> TakenDecode(p, xs)
    decreases |xs|
  {
    if xs != [] { NoClashMeansFrames(cfg, Advance(p, xs[0].number), xs[1..]); }
  }

  /** Every packet taken decodes to a frame. */
  predicate TakenDecode(p: Progress, xs: seq<Numbered>)
    decreases |xs|
  {
    xs == [] ||
    (&& (Takes(p, xs[0].number) ==> xs[0].pkt.decoded == Frame)
     && TakenDecode(Advance(p, xs[0].number), xs[1..]))
  }

  /** The numbers rise from above `last` on. */
  predicate RisesFrom(last: int, items: seq<Item>)
    decreases |items|
  {
    items == [] || (last < items[0].number && RisesFrom(items[0].number, items[1..]))
  }

  function LastNumber(last: int, items: seq<Item>): int {
    if items == [] then last else items[|items| - 1].number
  }

  lemma {:induction false} RisesConcat(last: int, a: seq<Item>, b: seq<Item>)
    ensures RisesFrom(last, a + b) <==> RisesFrom(last, a) && RisesFrom(LastNumber(last, a), b)
    decreases |a|
  {
    if a == [] {
      assert a + b == b;
    } else {
      assert (a + b)[0] == a[0] && (a + b)[1..] == a[1..] + b;
      RisesConcat(a[0].number, a[1..], b);
    }
  }

  lemma {:induction false} MissingRises(last: int, from: int, k: nat)
    requires last < from
    ensures RisesFrom(last, Missing(from, k))
    decreases k
  {
    if k > 0 {
      assert Missing(from, k)[1..] == Missing(from + 1, k - 1);
      MissingRises(from, from + 1, k - 1);
    }
  }

  lemma OwnRises(cfg: Config, last: int, x: Numbered)
    ensures RisesFrom(last, Own(cfg, x)) <==> (Own(cfg, x) != [] ==> last < Own(cfg, x)[0].number)
  {
  }

  /** One taken packet: its items rise above the last one unless it clashes, and leave
      its own number last exactly when it was heard. */
  lemma AddsRise(cfg: Config, p: Progress, heard: bool, last: int, x: Numbered)
    requires cfg.Valid() && cfg.conceal && p.Begun? && x.number >= p.next
    requires last < p.next && (heard <==> last == p.next - 1)
    ensures RisesFrom(last, Adds(cfg, p, x)) <==> !(x.pkt.decoded == Malformed && (x.number > p.next || heard))
    ensures LastNumber(last, Adds(cfg, p, x)) <= x.number
    ensures x.pkt.decoded == Frame <==> LastNumber(last, Adds(cfg, p, x)) == x.number
  {
    hide RisesFrom;
    var fill, own := Fill(cfg, p, x.number), Own(cfg, x);
    MissingRises(last, x.number - |fill|, |fill|);
    RisesConcat(last, fill, own);
    OwnRises(cfg, LastNumber(last, fill), x);
  }

  /** Item numbers rise through a run exactly when nothing clashes. */
  lemma {:induction false} ItemsRiseIff(cfg: Config, p: Progress, heard: bool, last: int, xs: seq<Numbered>)
    requires cfg.Valid() && cfg.conceal && p.Begun? && last < p.next && (heard <==> last == p.next - 1)
    ensures RisesFrom(last, Items(cfg, p, xs)) <==> NoClash(cfg, p, heard, xs)
    decreases |xs|
  {
    if xs != [] {
      hide RisesFrom, Own, Fill;
      var x, p' := xs[0], Advance(p, xs[0].number);
      var now, later := Adds(cfg, p, x), Items(cfg, p', xs[1..]);
      if x.number < p.next {
        assert now + later == later;
        ItemsRiseIff(cfg, p, heard, last, xs[1..]);
      } else {
        AddsRise(cfg, p, heard, last, x);
        RisesConcat(last, now, later);
        ItemsRiseIff(cfg, p', x.pkt.decoded == Frame, LastNumber(last, now), xs[1..]);
      }
    }
  }

  /** In particular a malformed packet in sequence is concealed at the time of the frame
      before it. */
  lemma MalformedRepeatsTime(cfg: Config, r: Reader, p: Progress, x: Numbered)
    requires cfg.Valid() && cfg.conceal && Follows(r, p) && p.Begun?
    requires x.number == p.next && x.pkt.seqno == Trunc16(x.number)
    requires Steady(cfg, r.base, p, x) && x.pkt.decoded == Malformed
    ensures Handle(cfg, r, x.pkt).0.out == r.out + [Render(cfg, p, Item(x.number - 1, true))]
  {
    hide Handle, Steady, Render;
    SteadyStep(cfg, r, p, x);
    assert Adds(cfg, p, x) == [Item(x.number - 1, true)];
  }

  /** Buffers rise in time. */
  ghost predicate TimesRise(out: seq<Buffer>) { forall i, j :: 0 <= i < j < |out| ==> out[i].pts < out[j].pts }

  lemma {:induction false} RisesEverywhere(last: int, items: seq<Item>, i: nat, j: nat)
    requires RisesFrom(last, items) && i < j < |items|
    ensures last < items[i].number < items[j].number
    decreases |items|
  {
    if i > 0 {
      RisesEverywhere(items[0].number, items[1..], i - 1, j - 1);
    } else if j > 1 {
      RisesEverywhere(items[0].number, items[1..], 0, j - 1);
    }
  }

  /** Items that do not rise have neighbours that do not. */
  lemma {:induction false} FallsSomewhere(last: int, items: seq<Item>) returns (i: nat)
    requires items != [] && last < items[0].number && !RisesFrom(last, items)
    ensures i + 1 < |items| && items[i].number >= items[i + 1].number
    decreases |items|
  {
    if |items| > 1 && items[0].number < items[1].number {
      var k := FallsSomewhere(items[0].number, items[1..]);
      i := k + 1;
    } else {
      i := 0;
    }
  }

  /** Within 2^32 ticks a later time is a later number. */
  lemma TimeOrder(cfg: Config, p: Progress, a: Item, b: Item)
    requires cfg.Valid() && p.Begun? && cfg.frameTicks * SECOND >= cfg.clockRate
    requires p.first <= a.number && p.first <= b.number
    requires Elapsed(cfg, p, a.number) < TWO32 && Elapsed(cfg, p, b.number) < TWO32
    ensures Render(cfg, p, a).pts < Render(cfg, p, b).pts <==> a.number < b.number
  {
    hide Trunc32;
    if a.number < b.number {
      PtsIncreases(cfg, p, a, b);
    } else if b.number < a.number {
      PtsIncreases(cfg, p, b, a);
    }
  }

  /** Where numbers are within the stream and the 32-bit range, times rise exactly when
      numbers do. */
  lemma TimesRiseIff(cfg: Config, p: Progress, last: int, items: seq<Item>)
    requires cfg.Valid() && p.Begun? && cfg.frameTicks * SECOND >= cfg.clockRate && last < p.first
    requires forall i :: 0 <= i < |items| ==> p.first <= items[i].number && Elapsed(cfg, p, items[i].number) < TWO32
    ensures TimesRise(RenderAll(cfg, p, items)) <==> RisesFrom(last, items)
  {
    hide Render, Elapsed;
    var out := RenderAll(cfg, p, items);
    if RisesFrom(last, items) {
      forall i, j | 0 <= i < j < |out| ensures out[i].pts < out[j].pts {
        RisesEverywhere(last, items, i, j);
        TimeOrder(cfg, p, items[i], items[j]);
      }
    } else {
      var i := FallsSomewhere(last, items);
      TimeOrder(cfg, p, items[i], items[i + 1]);
      assert !(out[i].pts < out[i + 1].pts);
    }
  }

  /** Items stay within the stream. */
  lemma {:induction false} ItemsFrom(cfg: Config, p: Progress, xs: seq<Numbered>, i: nat)
    requires cfg.Valid() && p.Begun? && i < |Items(cfg, p, xs)|
    ensures Items(cfg, p, xs)[i].number >= p.next - 1
    decreases |xs|
  {
    var now, p' := Adds(cfg, p, xs[0]), Advance(p, xs[0].number);
    if i >= |now| { ItemsFrom(cfg, p', xs[1..], i - |now|); }
  }

  /** A frame before the first lies at the far end of the 32-bit range, no earlier than
      anything in the stream. */
  lemma BeforeFirst(cfg: Config, p: Progress, a: Item, b: Item)
    requires cfg.Valid() && p.Begun? && 0 < cfg.frameTicks && a.number == p.first - 1 && b.number >= p.first
    requires Elapsed(cfg, p, b.number) + cfg.frameTicks <= TWO32
    ensures Render(cfg, p, a).pts >= Render(cfg, p, b).pts
  {
    var e := Elapsed(cfg, p, b.number);
    MulLe(0, b.number - p.first, cfg.frameTicks);
    assert Elapsed(cfg, p, a.number) == -(cfg.frameTicks as int) by { NegMul(1, cfg.frameTicks); }
    assert Trunc32(-(cfg.frameTicks as int)) == TWO32 - cfg.frameTicks;
    Small(e);
    DivMonotone(e * SECOND, (TWO32 - cfg.frameTicks) * SECOND, cfg.clockRate);
  }

  /** Every packet taken is the next in sequence and decodes to silence. */
  predicate OnlySilence(p: Progress, xs: seq<Numbered>)
    requires p.Begun?
    decreases |xs|
  {
    if xs == [] then true
    else if xs[0].number < p.next then OnlySilence(p, xs[1..])
    else xs[0].number == p.next && xs[0].pkt.decoded == NoAudio && OnlySilence(Advance(p, xs[0].number), xs[1..])
  }

  /** Those are the packets that leave no buffer. */
  lemma {:induction false} OnlySilenceIff(cfg: Config, p: Progress, xs: seq<Numbered>)
    requires cfg.Valid() && cfg.conceal && p.Begun?
    ensures Items(cfg, p, xs) == [] <==> OnlySilence(p, xs)
    decreases |xs|
  {
    if xs != [] {
      OnlySilenceIff(cfg, Advance(p, xs[0].number), xs[1..]);
    }
  }

  /** Within 2^32 ticks, the last frame of a buffer included. */
  ghost predicate InRange(cfg: Config, p: Progress, items: seq<Item>)
    requires p.Begun?
  {
    forall i :: 0 <= i < |items| ==> Elapsed(cfg, p, items[i].number) + cfg.frameTicks <= TWO32
  }

  lemma MalformedStart(cfg: Config, p: Progress, first: Item, rest: seq<Item>)
    requires cfg.Valid() && p.Begun? && first.number == p.first - 1 && cfg.frameTicks > 0
    requires InRange(cfg, p, [first] + rest) && forall i :: 0 <= i < |rest| ==> rest[i].number >= p.first
    ensures TimesRise(RenderAll(cfg, p, [first] + rest)) <==> rest == []
  {
    hide Render, Elapsed;
    if rest != [] {
      var items := [first] + rest;
      assert items[1] == rest[0];
      BeforeFirst(cfg, p, items[0], items[1]);
      assert RenderAll(cfg, p, items)[0].pts >= RenderAll(cfg, p, items)[1].pts;
    }
  }

  lemma HeardStart(cfg: Config, p: Progress, x: Numbered, xs: seq<Numbered>)
    requires cfg.Valid() && cfg.conceal && cfg.frameTicks * SECOND >= cfg.clockRate
    requires p == Begun(x.number, x.number + 1) && x.pkt.decoded != Malformed
    requires InRange(cfg, p, StreamItems(cfg, x, xs))
    requires forall i :: 0 <= i < |Items(cfg, p, xs)| ==> Items(cfg, p, xs)[i].number >= p.first
    ensures TimesRise(RenderAll(cfg, p, StreamItems(cfg, x, xs))) <==> NoClash(cfg, p, x.pkt.decoded == Frame, xs)
  {
    hide Items, NoClash, Elapsed, RenderAll, TimesRise;
    assert cfg.frameTicks > 0;
    var own := Own(cfg, x);
    TimesRiseIff(cfg, p, x.number - 1, StreamItems(cfg, x, xs));
    RisesConcat(x.number - 1, own, Items(cfg, p, xs));
    OwnRises(cfg, x.number - 1, x);
    ItemsRiseIff(cfg, p, x.pkt.decoded == Frame, LastNumber(x.number - 1, own), xs);
  }

  /** With concealment on and within 2^32 ticks, for every constant-tick stream: times
      strictly increase if and only if no malformed packet clashes and, should the first
      packet be malformed, every one taken after it is in sequence and silent. Where no
      packet decodes to silence the former says that no packet taken after the first is
      malformed (NoClashMeansFrames). */
  lemma TimesIncreaseIff(cfg: Config, x: Numbered, xs: seq<Numbered>)
    requires SteadyStream(cfg, x, xs) && cfg.conceal && cfg.frameTicks * SECOND >= cfg.clockRate
    requires InRange(cfg, Begun(x.number, x.number + 1), StreamItems(cfg, x, xs))
    ensures TimesRise(Run(cfg, FRESH, [x] + xs).out) <==>
        if x.pkt.decoded == Malformed then OnlySilence(Begun(x.number, x.number + 1), xs)
        else NoClash(cfg, Begun(x.number, x.number + 1), x.pkt.decoded == Frame, xs)
  {
    var p := Begun(x.number, x.number + 1);
    var rest := Items(cfg, p, xs);
    StreamOut(cfg, x, xs);
    OnlySilenceIff(cfg, p, xs);
    hide Items, RenderAll, NoClash, OnlySilence, InRange, TimesRise, Run;
    forall i | 0 <= i < |rest| ensures rest[i].number >= p.first {
      ItemsFrom(cfg, p, xs, i);
    }
    if x.pkt.decoded == Malformed {
      assert cfg.frameTicks > 0;
      MalformedStart(cfg, p, Item(x.number - 1, true), rest);
    } else {
      HeardStart(cfg, p, x, xs);
    }
  }

  /** If the very first packet is malformed, its filler lies one frame before the
      origin and wraps to the far end of the 32-bit range. */
  lemma MalformedFirstWraps(cfg: Config, pkt: Packet)
    requires cfg.Valid() && cfg.conceal && cfg.frameTicks > 0 && pkt.decoded == Malformed && pkt.concealable >= 1
    ensures Handle(cfg, FRESH, pkt).0.out == [Buffer(true, (TWO32 - cfg.frameTicks) * SECOND / cfg.clockRate)]
  {
    assert Fillers(cfg, pkt.timestamp, 1, pkt.timestamp, 1) == [Filler(cfg, pkt.timestamp, 1, pkt.timestamp, 0)];
    TruncShift(pkt.timestamp - cfg.frameTicks, -(pkt.timestamp as int));
    assert Trunc32(-(cfg.frameTicks as int)) == TWO32 - cfg.frameTicks;
  }

  // ---- the reader as it is written ----

  class TrackReader {
    const cfg: Config
    var haveBase: bool
    var baseTimestamp: uint32
    var haveSeq: bool
    var expectedSeq: uint16
    var pending: seq<Buffer>

    /** Buffers already returned by Read, and the decoder's history. */
    ghost var taken: seq<Buffer>
    ghost var fed: seq<uint16>
    ghost var resets: nat

    ghost function View(): Reader
      reads this
    {
      Reader(haveBase, baseTimestamp, haveSeq, expectedSeq, taken + pending, fed, resets)
    }

    constructor (cfg: Config)
      ensures View() == FRESH && this.cfg == cfg
    {
      this.cfg := cfg;
      haveBase, baseTimestamp, haveSeq, expectedSeq, pending := false, 0, false, 0, [];
      taken, fed, resets := [], [], 0;
    }

    /** handle. */
    method HandlePacket(pkt: Packet) returns (failed: bool)
      requires cfg.Valid()
      modifies this`haveBase, this`baseTimestamp, this`haveSeq, this`expectedSeq, this`pending, this`fed, this`resets
      ensures (View(), failed) == Handle(cfg, old(View()), pkt)
    {
      hide Fillers, PtsOf;
      if !haveBase {
        baseTimestamp, haveBase := pkt.timestamp, true;
      }
      if haveSeq {
        var gap := Trunc16(pkt.seqno - expectedSeq);
        if gap > 0x8000 {
          return false;
        }
        if gap > 0 {
          FillGap(gap, pkt);
        }
      }
      expectedSeq := Trunc16(pkt.seqno + 1);
      haveSeq := true;
      fed := fed + [pkt.seqno];
      if pkt.decoded == Malformed {
        if cfg.conceal {
          FillGap(1, pkt);
          return false;
        }
        return true;
      }
      if pkt.decoded == Frame {
        var pcm := Buffer(false, PtsOf(cfg, baseTimestamp, pkt.timestamp));
        assert (taken + pending) + [pcm] == taken + (pending + [pcm]);
        pending := pending + [pcm];
      }
      failed := false;
    }

    /** concealGap. */
    method FillGap(missing: nat, pkt: Packet)
      requires cfg.Valid()
      modifies this`pending, this`resets
      ensures View() == ConcealGap(cfg, old(View()), missing, pkt)
    {
      hide PtsOf, Trunc32, Fillers, Filler;
      if !cfg.conceal {
        return;
      }
      var count := missing;
      if count > cfg.maxConceal {
        count := cfg.maxConceal;
        resets := resets + 1;
      }
      ghost var before := pending;
      var done := 0;
      assert before + Fillers(cfg, baseTimestamp, count, pkt.timestamp, 0) == before;
      while done < count && done < pkt.concealable
        modifies this`pending
        invariant 0 <= done <= Min(count, pkt.concealable)
        invariant pending == before + Fillers(cfg, baseTimestamp, count, pkt.timestamp, done)
      {
        var pcm := Buffer(true, PtsOf(cfg, baseTimestamp, Trunc32(pkt.timestamp - (count - done) * cfg.frameTicks)));
        FillersStep(cfg, baseTimestamp, count, pkt.timestamp, done);
        pending := pending + [pcm];
        done := done + 1;
      }
      assert taken + (before + Fillers(cfg, baseTimestamp, count, pkt.timestamp, done))
          == (taken + before) + Fillers(cfg, baseTimestamp, count, pkt.timestamp, done);
    }

    /** Read, once a buffer is pending. */
    method TakePending() returns (pcm: Buffer)
      requires pending != []
      modifies this`pending, this`taken
      ensures View() == old(View()) && taken == old(taken) + [pcm] && [pcm] + pending == old(pending)
    {
      pcm := pending[0];
      taken := taken + [pcm];
      pending := pending[1..];
      assert taken + pending == old(taken) + old(pending);
    }
  }
}
