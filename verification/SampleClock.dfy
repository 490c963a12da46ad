/** The RTP timeline of a local track (track/local.go): sampleClock.place counts in
    32 bits, and is proved to follow a timeline of unbounded ticks. */
module SampleClock {
  import opened Wrappers
  import opened Bits
  import Arith

  const SECOND := 1_000_000_000

  /** A media sample: nanoseconds of audio or video, packets lost before it, its RTP
      timestamp (0 if unset) and its wall clock time in nanoseconds, if set. */
  datatype Sample = Sample(duration: int64, dropped: uint16, packetTimestamp: uint32, wall: Option<int>)

  datatype Refusal = InvalidDuration | OutOfOrder

  datatype Placement = Placed(skip: int, span: int) | Refused(why: Refusal)

  // ---- the 32-bit clock ----

  datatype Clock = Clock(started: bool, start: uint32, end: uint32, wall: Option<int>)

  const FRESH := Clock(false, 0, 0, None)

  /** int64(d) * int64(rate) / int64(time.Second), converted to uint32. */
  function Ticks32(d: int64, rate: uint32): uint32 { Trunc32(Quo(Wrap64(d * rate), SECOND)) }

  /** time.Time.Sub, which saturates. */
  function Since(a: int, b: int): int64 {
    if a - b >= TWO63 then TWO63 - 1 else if a - b < -TWO63 then -TWO63 else a - b
  }

  /** Where the sample would like to start on a running clock, if it may. */
  function Target32(c: Clock, s: Sample, rate: uint32, earliest: uint32): Option<uint32> {
    if s.packetTimestamp != 0 then
      if AsInt32(Trunc32(s.packetTimestamp - c.start)) < 0 then None else Some(s.packetTimestamp)
    else if s.wall.Some? && c.wall.Some? then
      if s.wall.value < c.wall.value then None
      else Some(Trunc32(c.start + Ticks32(Since(s.wall.value, c.wall.value), rate)))
    else Some(earliest)
  }

  /** sampleClock.place. */
  function Place(c: Clock, s: Sample, rate: uint32): (r: (Clock, Placement))
    ensures r.1.Refused? ==> r.0 == c
  {
    if s.duration < 0 then (c, Refused(InvalidDuration))
    else
      var span := Ticks32(s.duration, rate);
      var dropped := Trunc32(s.dropped * span);
      var end := if !c.started && s.packetTimestamp != 0 then Trunc32(s.packetTimestamp - dropped) else c.end;
      var earliest := Trunc32(end + dropped);
      var target := if c.started then Target32(c, s, rate, earliest) else Some(earliest);
      if target.None? then (c, Refused(OutOfOrder))
      else Settle32(target.value, earliest, end, span, s.wall)
  }

  /** The end of place: the later of target and earliest. */
  function Settle32(target: uint32, earliest: uint32, end: uint32, span: uint32, wall: Option<int>)
      : (r: (Clock, Placement))
    ensures r.1.Placed?
  {
    var start := if AsInt32(Trunc32(target - earliest)) > 0 then target else earliest;
    (Clock(true, start, Trunc32(start + span), wall), Placed(Trunc32(start - end), span))
  }

  // ---- the unbounded timeline ----

  datatype Timeline = Timeline(started: bool, start: int, end: int, wall: Option<int>)

  function Ticks(d: int, rate: uint32): int { d * rate / SECOND }

  /** A sample together with the tick its packet timestamp stands for. */
  datatype Timed = Timed(s: Sample, tick: int)

  function Target(t: Timeline, x: Timed, rate: uint32, earliest: int): Option<int> {
    if x.s.packetTimestamp != 0 then if x.tick < t.start then None else Some(x.tick)
    else if x.s.wall.Some? && t.wall.Some? then
      if x.s.wall.value < t.wall.value then None else Some(t.start + Ticks(x.s.wall.value - t.wall.value, rate))
    else Some(earliest)
  }

  /** A sample starts at its own time, but not before the previous one has ended and
      the dropped packets have had their ticks. */
  function PlaceTrue(t: Timeline, x: Timed, rate: uint32): (Timeline, Placement) {
    if x.s.duration < 0 then (t, Refused(InvalidDuration))
    else
      var span := Ticks(x.s.duration, rate);
      var dropped := x.s.dropped * span;
      var end := if !t.started && x.s.packetTimestamp != 0 then x.tick - dropped else t.end;
      var earliest := end + dropped;
      var target := if t.started then Target(t, x, rate, earliest) else Some(earliest);
      if target.None? then (t, Refused(OutOfOrder))
      else SettleTrue(target.value, earliest, end, span, x.s.wall)
  }

  function SettleTrue(target: int, earliest: int, end: int, span: int, wall: Option<int>): (Timeline, Placement) {
    var start := if target > earliest then target else earliest;
    (Timeline(true, start, start + span, wall), Placed(start - end, span))
  }

  /** Steps under 2^31 ticks: the previous sample with the packets dropped after it,
      and the distance of the sample's own time from the previous start. */
  predicate Tame(t: Timeline, x: Timed, rate: uint32) {
    && (x.s.packetTimestamp != 0 ==> x.s.packetTimestamp == Trunc32(x.tick))
    && (x.s.duration >= 0 ==>
          && Ticks(x.s.duration, rate) < TWO31 && x.s.dropped * Ticks(x.s.duration, rate) < TWO31
          && (t.started ==> t.end + x.s.dropped * Ticks(x.s.duration, rate) - t.start < TWO31))
    && (t.started && x.s.packetTimestamp != 0 ==> -TWO31 <= x.tick - t.start < TWO31)
    && (t.started && x.s.packetTimestamp == 0 && x.s.wall.Some? && t.wall.Some? && x.s.wall.value >= t.wall.value ==>
          Ticks(x.s.wall.value - t.wall.value, rate) < TWO31)
  }

  predicate Refines(c: Clock, t: Timeline) {
    && c.started == t.started && c.wall == t.wall
    && c.start == Trunc32(t.start) && c.end == Trunc32(t.end)
    && t.start <= t.end
    && (!t.started ==> t.start == 0 && t.end == 0)
  }

  /** A tick count below 2^31 has not overflowed anywhere on the way. */
  lemma TicksExact(d: int, rate: uint32)
    requires d >= 0 && Ticks(d, rate) < TWO31
    ensures 0 <= Ticks(d, rate) && (d < TWO63 ==> Ticks32(d, rate) == Ticks(d, rate))
    ensures Ticks32(Since(d, 0), rate) == Ticks(d, rate)
  {
    var p := d * rate;
    Arith.MulLe(0, d, rate);
    Arith.DivMod(p, SECOND);
    SmallProduct(d, rate, p);
    assert Wrap64(p) == p && Trunc32(p / SECOND) == p / SECOND;
  }

  /** A product that fits an int64 has a saturated factor only if the other is 0. */
  lemma SmallProduct(d: int, rate: uint32, p: int)
    requires d >= 0 && p == d * rate && p < TWO63
    ensures Since(d, 0) * rate == p
  {
    if rate == 0 {
      assert Since(d, 0) * 0 == 0 && d * 0 == 0;
    } else {
      Arith.MulLe(1, rate, d);
      assert d * rate == rate * d;
    }
  }

  lemma SinceShift(a: int, b: int)
    ensures Since(a, b) == Since(a - b, 0)
  {
  }

  lemma TargetRefines(c: Clock, t: Timeline, x: Timed, rate: uint32, earliest: int)
    requires Refines(c, t) && Tame(t, x, rate) && t.started
    ensures var a := Target32(c, x.s, rate, Trunc32(earliest)); var b := Target(t, x, rate, earliest);
      if b.None? then a.None? else a == Some(Trunc32(b.value))
    ensures var b := Target(t, x, rate, earliest);
      b.Some? ==> b.value == earliest || t.start <= b.value < t.start + TWO31
  {
    hide Trunc32, AsInt32, Ticks32, Ticks, Since;
    if x.s.packetTimestamp != 0 {
      RingDistance(x.tick, t.start);
    } else if x.s.wall.Some? && t.wall.Some? && x.s.wall.value >= t.wall.value {
      var d := x.s.wall.value - t.wall.value;
      TicksExact(d, rate);
      SinceShift(x.s.wall.value, t.wall.value);
      TruncAdd(t.start, Ticks(d, rate));
    }
  }

  lemma TruncId(x: uint32)
    ensures Trunc32(x) == x
  {
  }

  lemma SettleRefines(target: int, earliest: int, end: int, span: int, wall: Option<int>)
    requires -TWO31 <= target - earliest < TWO31 && end <= earliest && earliest - end < TWO31 && target - end < TWO32
    requires 0 <= span < TWO31
    ensures var a := Settle32(Trunc32(target), Trunc32(earliest), Trunc32(end), span, wall);
            var b := SettleTrue(target, earliest, end, span, wall);
            a.1 == b.1 && Refines(a.0, b.0)
  {
    hide Trunc32, AsInt32;
    RingDistance(target, earliest);
    var start := if target > earliest then target else earliest;
    TruncSub(start, end);
    TruncAdd(start, span);
    TruncId(start - end);
    TruncId(span);
  }

  /** One sample: the 32-bit clock refuses exactly what the timeline refuses, passes
      the packetizer the true skip and span, and stays the timeline modulo 2^32. */
  lemma PlaceRefines(c: Clock, t: Timeline, x: Timed, rate: uint32)
    requires Refines(c, t) && Tame(t, x, rate)
    ensures Place(c, x.s, rate).1 == PlaceTrue(t, x, rate).1
    ensures Refines(Place(c, x.s, rate).0, PlaceTrue(t, x, rate).0)
  {
    hide Settle32, SettleTrue, Target32, Target, Ticks32, Ticks, Trunc32;
    if x.s.duration >= 0 {
      var span := Ticks(x.s.duration, rate);
      TicksExact(x.s.duration, rate);
      var dropped := x.s.dropped * span;
      Arith.MulLe(0, x.s.dropped, span);
      TruncId(dropped);
      var end := if !t.started && x.s.packetTimestamp != 0 then x.tick - dropped else t.end;
      TruncSub(x.tick, dropped);
      TruncAdd(end, dropped);
      var earliest := end + dropped;
      if t.started {
        TargetRefines(c, t, x, rate, earliest);
      }
      var target := if t.started then Target(t, x, rate, earliest) else Some(earliest);
      if target.Some? {
        SettleRefines(target.value, earliest, end, span, x.s.wall);
      }
    }
  }

  /** Without that bound: a timestamp d ticks ahead of the previous start is refused
      as out of order exactly when d is half the ring or more. */
  lemma RefusedIffHalfRingAhead(c: Clock, s: Sample, rate: uint32, d: uint32)
    requires c.started && s.duration >= 0 && s.packetTimestamp != 0 && s.packetTimestamp == Trunc32(c.start + d)
    ensures Place(c, s, rate).1 == Refused(OutOfOrder) <==> d >= TWO31
  {
    hide Settle32, Ticks32;
    TruncAdd(c.start + d, -(c.start as int));
    TruncId(d);
  }

  // ---- whole runs ----

  /** A placed sample: where it starts and ends on the timeline. */
  datatype Spot = Spot(x: Timed, start: int, end: int)

  /** The samples that are placed, refused ones leaving no trace. */
  function Spots(t: Timeline, xs: seq<Timed>, rate: uint32): seq<Spot>
    decreases |xs|
  {
    if xs == [] then []
    else
      var (t', p) := PlaceTrue(t, xs[0], rate);
      (if p.Placed? then [Spot(xs[0], t'.start, t'.end)] else []) + Spots(t', xs[1..], rate)
  }

  /** Steps under 2^31 ticks throughout. */
  predicate AllTame(t: Timeline, xs: seq<Timed>, rate: uint32)
    decreases |xs|
  {
    xs == [] || (Tame(t, xs[0], rate) && AllTame(PlaceTrue(t, xs[0], rate).0, xs[1..], rate))
  }

  /** The packetizer's timestamp, which SkipSamples and Packetize advance. */
  datatype Wire = Wire(clock: Clock, stamp: uint32)

  /** WriteSample's effect on clock and packetizer. */
  function Write(w: Wire, s: Sample, rate: uint32): Wire {
    var (c, p) := Place(w.clock, s, rate);
    if p.Placed? then Wire(c, Trunc32(w.stamp + p.skip + p.span)) else w
  }

  /** The RTP timestamps of the samples written. */
  function Stamps(w: Wire, xs: seq<Timed>, rate: uint32): seq<uint32>
    decreases |xs|
  {
    if xs == [] then []
    else
      var p := Place(w.clock, xs[0].s, rate).1;
      (if p.Placed? then [Trunc32(w.stamp + p.skip)] else []) + Stamps(Write(w, xs[0].s, rate), xs[1..], rate)
  }

  /** The packetizer stands at the end of the last sample, offset by k. */
  predicate Aligned(w: Wire, t: Timeline, k: int) { t.started ==> w.stamp == Trunc32(k + t.end) }

  lemma PlacedMeans(t: Timeline, x: Timed, rate: uint32)
    ensures var (t', p) := PlaceTrue(t, x, rate);
      && (p.Refused? ==> t' == t)
      && (p.Placed? ==> t'.started && p.span == t'.end - t'.start && (t.started ==> p.skip == t'.start - t.end))
  {
    hide Ticks, Target;
  }

  lemma WriteAligned(w: Wire, t: Timeline, x: Timed, rate: uint32, k: int)
    requires Refines(w.clock, t) && Tame(t, x, rate) && Aligned(w, t, k)
    requires !t.started && PlaceTrue(t, x, rate).1.Placed? ==>
      k == w.stamp + PlaceTrue(t, x, rate).1.skip - PlaceTrue(t, x, rate).0.start
    ensures var (t', p) := PlaceTrue(t, x, rate);
      && Refines(Write(w, x.s, rate).clock, t')
      && Aligned(Write(w, x.s, rate), t', k)
      && (p.Placed? ==> Trunc32(w.stamp + p.skip) == Trunc32(k + t'.start))
  {
    hide Place, PlaceTrue, Tame, Trunc32;
    PlaceRefines(w.clock, t, x, rate);
    PlacedMeans(t, x, rate);
    var (t', p) := PlaceTrue(t, x, rate);
    if p.Placed? && t.started {
      TruncAdd(k + t.end, p.skip);
      TruncAdd(k + t.end, p.skip + p.span);
    }
  }

  /** Offsets for the first sample placed, or for a stream already running. */
  function Offset(w: Wire, t: Timeline, x: Timed, rate: uint32): int {
    if t.started then w.stamp - t.end
    else
      var (t', p) := PlaceTrue(t, x, rate);
      if p.Placed? then w.stamp + p.skip - t'.start else 0
  }

  /** Every RTP timestamp is the sample's true start, offset by one constant for the
      whole stream: the skips and spans telescope. */
  lemma {:induction false} StampsFollowTimeline(w: Wire, t: Timeline, xs: seq<Timed>, rate: uint32) returns (k: int)
    requires Refines(w.clock, t) && AllTame(t, xs, rate)
    ensures Aligned(w, t, k)
    ensures |Stamps(w, xs, rate)| == |Spots(t, xs, rate)|
    ensures forall i :: 0 <= i < |Spots(t, xs, rate)| ==>
              Stamps(w, xs, rate)[i] == Trunc32(k + Spots(t, xs, rate)[i].start)
    decreases |xs|
  {
    hide Tame, Place, PlaceTrue, Trunc32, Refines;
    TruncId(w.stamp);
    if xs == [] {
      k := w.stamp - t.end;
    } else {
      var (t', p) := PlaceTrue(t, xs[0], rate);
      PlacedMeans(t, xs[0], rate);
      PlaceRefines(w.clock, t, xs[0], rate);
      var w' := Write(w, xs[0].s, rate);
      k := StampsFollowTimeline(w', t', xs[1..], rate);
      if t.started || p.Placed? {
        var j := k;
        k := Offset(w, t, xs[0], rate);
        WriteAligned(w, t, xs[0], rate, k);
        SameOffset(t', w', j, k, Spots(t', xs[1..], rate), Stamps(w', xs[1..], rate));
      }
    }
  }

  /** Two offsets that agree at one tick agree at every tick. */
  lemma SameOffset(t: Timeline, w: Wire, j: int, k: int, spots: seq<Spot>, stamps: seq<uint32>)
    requires t.started && Trunc32(j + t.end) == w.stamp == Trunc32(k + t.end)
    requires |stamps| == |spots| && forall i :: 0 <= i < |spots| ==> stamps[i] == Trunc32(j + spots[i].start)
    ensures forall i :: 0 <= i < |spots| ==> stamps[i] == Trunc32(k + spots[i].start)
  {
    hide Trunc32;
    forall i | 0 <= i < |spots| ensures stamps[i] == Trunc32(k + spots[i].start) {
      var d := spots[i].start - t.end;
      TruncAdd(j + t.end, d);
      TruncAdd(k + t.end, d);
    }
  }

  /** Two RTP timestamps differ by the true distance of their samples. */
  lemma StampDistance(w: Wire, t: Timeline, xs: seq<Timed>, rate: uint32, i: nat, j: nat)
    requires Refines(w.clock, t) && AllTame(t, xs, rate) && i < |Spots(t, xs, rate)| && j < |Spots(t, xs, rate)|
    ensures |Stamps(w, xs, rate)| == |Spots(t, xs, rate)|
    ensures Trunc32(Stamps(w, xs, rate)[j] as int - Stamps(w, xs, rate)[i] as int)
         == Trunc32(Spots(t, xs, rate)[j].start - Spots(t, xs, rate)[i].start)
  {
    hide Stamps, Spots, Refines, AllTame, Trunc32;
    var k := StampsFollowTimeline(w, t, xs, rate);
    TruncSub(k + Spots(t, xs, rate)[j].start, k + Spots(t, xs, rate)[i].start);
  }

  /** Ticks of the packets dropped before a sample. */
  function Gap(x: Timed, rate: uint32): int { x.s.dropped * Ticks(x.s.duration, rate) }

  /** Where the time before spot i ends: at the end of the previous sample, or, for the
      first sample on a fresh clock, where its own timestamp lets it begin. */
  function EndBefore(t: Timeline, spots: seq<Spot>, rate: uint32, i: nat): int
    requires i < |spots|
  {
    if i > 0 then spots[i - 1].end
    else if !t.started && spots[0].x.s.packetTimestamp != 0 then spots[0].x.tick - Gap(spots[0].x, rate)
    else t.end
  }

  /** Where the previous sample starts, and its wall clock time. */
  function StartBefore(t: Timeline, spots: seq<Spot>, i: nat): int
    requires i < |spots|
  {
    if i > 0 then spots[i - 1].start else t.start
  }

  function WallBefore(t: Timeline, spots: seq<Spot>, i: nat): Option<int>
    requires i < |spots|
  {
    if i > 0 then spots[i - 1].x.s.wall else t.wall
  }

  function Later(a: int, b: int): int { if a >= b then a else b }

  /** Over every run, a fresh clock included: a sample starts at the end of the one before
      plus the gap, or at its own time if that is later; its own time is its packet
      timestamp, or else the previous start plus the ticks of the wall clock time in
      between, if both samples have one. */
  lemma {:induction false} SpotsInOrder(t: Timeline, xs: seq<Timed>, rate: uint32, i: nat)
    requires i < |Spots(t, xs, rate)|
    ensures var spots := Spots(t, xs, rate);
      var x := spots[i].x; var earliest := EndBefore(t, spots, rate, i) + Gap(x, rate);
      var before := WallBefore(t, spots, i);
      && spots[i].start >= earliest && spots[i].end == spots[i].start + Ticks(x.s.duration, rate)
      && (x.s.packetTimestamp != 0 ==> spots[i].start == Later(x.tick, earliest))
      && (x.s.packetTimestamp == 0 ==>
            spots[i].start ==
              if (i > 0 || t.started) && x.s.wall.Some? && before.Some? then
                Later(StartBefore(t, spots, i) + (x.s.wall.value - before.value) * rate / SECOND, earliest)
              else earliest)
    decreases |xs|
  {
    hide Ticks;
    var (t', p) := PlaceTrue(t, xs[0], rate);
    if p.Refused? {
      SpotsInOrder(t', xs[1..], rate, i);
    } else if i > 0 {
      SpotsInOrder(t', xs[1..], rate, i - 1);
    } else if xs[0].s.packetTimestamp == 0 && xs[0].s.wall.Some? && t.wall.Some? {
      TicksOf(xs[0].s.wall.value - t.wall.value, rate);
    }
  }

  lemma TicksOf(d: int, rate: uint32)
    ensures Ticks(d, rate) == d * rate / SECOND
  {
  }

  /** Exactly the samples that go back are refused: a negative duration, a packet timestamp
      before the previous start, or a wall clock time before the previous one. */
  lemma {:induction false} KeptIff(t: Timeline, xs: seq<Timed>, rate: uint32, x: Timed)
    ensures var spots := Spots(t, xs, rate); var after := Spots(t, xs + [x], rate); var n := |spots|;
      var started := n > 0 || t.started;
      var goesBack :=
        if x.s.packetTimestamp != 0 then x.tick < (if n > 0 then spots[n - 1].start else t.start)
        else
          var before := if n > 0 then spots[n - 1].x.s.wall else t.wall;
          x.s.wall.Some? && before.Some? && x.s.wall.value < before.value;
      if x.s.duration < 0 || (started && goesBack) then after == spots
      else |after| == n + 1 && after[..n] == spots && after[n].x == x
    decreases |xs|
  {
    hide Ticks;
    if xs == [] {
      assert [] + [x] == [x] && [x][1..] == [];
    } else {
      assert (xs + [x])[1..] == xs[1..] + [x];
      KeptIff(PlaceTrue(t, xs[0], rate).0, xs[1..], rate, x);
    }
  }

  // ---- the track's writer ----

  /** The binding of a track: clock, sequencer and packetizer. */
  class Binding {
    const rate: uint32
    var started: bool
    var start: uint32
    var end: uint32
    var wall: Option<int>
    var nextSeq: uint16
    var stamp: uint32

    ghost function View(): Wire
      reads this
    {
      Wire(Clock(started, start, end, wall), stamp)
    }

    constructor (rate: uint32, firstSeq: uint16, stamp: uint32)
      ensures View() == Wire(FRESH, stamp) && nextSeq == firstSeq && this.rate == rate
    {
      this.rate := rate;
      started, start, end, wall := false, 0, 0, None;
      nextSeq, this.stamp := firstSeq, stamp;
    }

    /** sampleClock.place, updating the clock in place. */
    method PlaceSample(s: Sample) returns (p: Placement)
      modifies this`started, this`start, this`end, this`wall
      ensures (View().clock, p) == Place(old(View()).clock, s, rate)
    {
      hide Trunc32, AsInt32, Ticks32, Since;
      if s.duration < 0 {
        return Refused(InvalidDuration);
      }
      var span := Ticks32(s.duration, rate);
      var dropped := Trunc32(s.dropped * span);
      if !started && s.packetTimestamp != 0 {
        end := Trunc32(s.packetTimestamp - dropped);
      }
      var from := Trunc32(end + dropped);
      if started {
        var target: uint32;
        if s.packetTimestamp != 0 {
          if AsInt32(Trunc32(s.packetTimestamp - start)) < 0 {
            return Refused(OutOfOrder);
          }
          target := s.packetTimestamp;
        } else if s.wall.Some? && wall.Some? {
          if s.wall.value < wall.value {
            return Refused(OutOfOrder);
          }
          target := Trunc32(start + Ticks32(Since(s.wall.value, wall.value), rate));
        } else {
          target := from;
        }
        if AsInt32(Trunc32(target - from)) > 0 {
          from := target;
        }
      }
      p := Placed(Trunc32(from - end), span);
      started := true;
      start, end, wall := from, Trunc32(from + span), s.wall;
    }

    /** WriteSample for a sample that becomes the given number of packets: each
        dropped packet leaves a gap of one sequence number. */
    method WriteSample(s: Sample, packets: nat) returns (p: Placement)
      modifies this
      ensures View() == Write(old(View()), s, rate) && p == Place(old(View()).clock, s, rate).1
      ensures nextSeq == if p.Placed? then Trunc16(old(nextSeq) + s.dropped + packets) else old(nextSeq)
    {
      hide Place, Trunc32, Trunc16;
      Trunc16Add(nextSeq, 0);
      p := PlaceSample(s);
      if p.Refused? {
        return;
      }
      for i := 0 to s.dropped
        invariant nextSeq == Trunc16(old(nextSeq) + i)
        modifies this`nextSeq
      {
        Trunc16Add(old(nextSeq) + i, 1);
        nextSeq := Trunc16(nextSeq + 1);
      }
      stamp := Trunc32(stamp + p.skip);
      Trunc16Add(old(nextSeq) + s.dropped, packets);
      nextSeq := Trunc16(nextSeq + packets);
      TruncAdd(old(stamp) + p.skip, p.span);
      stamp := Trunc32(stamp + p.span);
    }
  }
}
