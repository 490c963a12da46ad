/** Reconnecting a dropped call (reconnect.go and the loop of call.go): strategies,
    backoff and budgets, as a machine over every interleaving of the loop with the
    rest of the program. */
module Reconnect {
  import opened Bits
  import opened Arith
  import SlidingWindow

  // ---- strategies ----

  /** An open protobuf enum: values outside the named ones can arrive. */
  type Strategy = int
  const UNSPECIFIED: Strategy := 0
  const DISCONNECT: Strategy := 1
  const FAST: Strategy := 2
  const REJOIN: Strategy := 3
  const MIGRATE: Strategy := 4

  function Escalate(s: Strategy): Strategy {
    if s == DISCONNECT then s
    else if s == MIGRATE then REJOIN
    else if s < REJOIN then s + 1
    else s
  }

  /** A strategy after k failures. */
  function EscalateTimes(s: Strategy, k: nat): Strategy {
    if k == 0 then s else Escalate(EscalateTimes(s, k - 1))
  }

  lemma {:induction false} EscalateStays(s: Strategy, k: nat)
    ensures s < FAST ==> EscalateTimes(s, k) < FAST
    ensures s > MIGRATE ==> EscalateTimes(s, k) == s
  {
    if k > 0 { EscalateStays(s, k - 1); }
  }

  /** Failures walk to REJOIN from FAST, REJOIN and MIGRATE, and from nowhere else. */
  lemma EscalateReachesIff(s: Strategy)
    ensures (exists k :: EscalateTimes(s, k) == REJOIN) <==> FAST <= s <= MIGRATE
  {
    if FAST <= s <= MIGRATE {
      assert EscalateTimes(s, 0) == s;
      assert EscalateTimes(s, 1) == REJOIN;
    } else {
      forall k: nat ensures EscalateTimes(s, k) != REJOIN { EscalateStays(s, k); }
    }
  }

  /** How runReconnect ends when its calls would end as `ok` says: a strategy it does not
      know is logged and counts as success. */
  predicate Ends(s: Strategy, ok: bool) { ok || (s != FAST && s != REJOIN && s != MIGRATE) }

  predicate ConsumesRejoinBudget(s: Strategy) { s == REJOIN || s == MIGRATE }

  // ---- configuration ----

  datatype Config = Config(
    initial: int64, maxBackoff: int64, maxFast: int64, fallback: int64,
    rejoinLimit: int64, rejoinWindow: int64, timeout: int64)

  const DEFAULTS := Config(100_000_000, 5_000_000_000, 3, 3_000_000_000, 10, 120_000_000_000, 0)

  predicate Usable(c: Config) {
    c.initial > 0 && c.maxBackoff > 0 && c.maxFast > 0 && c.fallback > 0 && c.rejoinLimit > 0 && c.rejoinWindow > 0
  }

  function WithDefaults(c: Config): (d: Config)
    ensures Usable(d) && d.timeout == c.timeout
    ensures Usable(c) ==> d == c
  {
    var d := DEFAULTS;
    Config(if c.initial <= 0 then d.initial else c.initial,
           if c.maxBackoff <= 0 then d.maxBackoff else c.maxBackoff,
           if c.maxFast <= 0 then d.maxFast else c.maxFast,
           if c.fallback <= 0 then d.fallback else c.fallback,
           if c.rejoinLimit <= 0 then d.rejoinLimit else c.rejoinLimit,
           if c.rejoinWindow <= 0 then d.rejoinWindow else c.rejoinWindow,
           c.timeout)
  }

  /** How long after losing the connection a fast reconnect is worth trying. */
  function Deadline(cfg: Config, secs: int): int {
    if secs > 0 then secs * 1_000_000_000 else cfg.fallback
  }

  // ---- backoff ----

  function NextBackoff(max: int64, backoff: int64): int64 {
    if backoff >= max then max else Min(Wrap64(2 * backoff), max)
  }

  /** The k-th wait since the budget was last replenished. */
  function Backoff(initial: int64, max: int64, k: nat): int64 {
    if k == 0 then initial else NextBackoff(max, Backoff(initial, max, k - 1))
  }

  /** 2^k * x. */
  function Times2(x: int, k: nat): int { if k == 0 then x else 2 * Times2(x, k - 1) }

  /** The documented wait: doubling, capped. */
  function Doubled(initial: int, max: int, k: nat): int {
    if k == 0 then initial else Min(Times2(initial, k), max)
  }

  /** The last doubling of x that an int64 can hold. */
  function Peak(x: int): (p: int)
    requires 0 < x < TWO63
    ensures x <= p < TWO63 <= 2 * p
    decreases TWO63 - x
  {
    if 2 * x < TWO63 then Peak(2 * x) else x
  }

  lemma {:induction false} Times2Shift(x: int, k: nat)
    ensures Times2(2 * x, k) == Times2(x, k + 1)
    ensures x > 0 ==> Times2(x, k) >= x
  {
    if k > 0 { Times2Shift(x, k - 1); }
  }

  lemma {:induction false} PeakIsDoubling(x: int) returns (k: nat)
    requires 0 < x < TWO63
    ensures Peak(x) == Times2(x, k)
    decreases TWO63 - x
  {
    if 2 * x < TWO63 {
      var j := PeakIsDoubling(2 * x);
      Times2Shift(x, j);
      k := j + 1;
    } else {
      k := 0;
    }
  }

  /** A doubling that an int64 can hold is the peak or at most half of it. */
  lemma {:induction false} BelowPeak(x: int, k: nat)
    requires 0 < x < TWO63 && Times2(x, k) < TWO63
    ensures Times2(x, k) == Peak(x) || 2 * Times2(x, k) <= Peak(x)
    decreases k
  {
    if k > 0 {
      Times2Shift(x, k - 1);
      Times2Shift(2 * x, k - 1);
      BelowPeak(2 * x, k - 1);
    } else if 2 * x < TWO63 {
      assert Peak(x) == Peak(2 * x);
    }
  }

  lemma WrapFits(x: int)
    requires -TWO63 <= x < TWO63
    ensures Wrap64(x) == x
  {
  }

  lemma {:induction false} BackoffIsDoubled(initial: int64, max: int64, k: nat)
    requires initial > 0 && max > 0 && Peak(initial) >= max
    ensures Backoff(initial, max, k) == Doubled(initial, max, k)
  {
    hide Wrap64;
    if k > 0 {
      BackoffIsDoubled(initial, max, k - 1);
      Times2Shift(initial, k - 1);
      if Times2(initial, k - 1) < max {
        BelowPeak(initial, k - 1);
        WrapFits(2 * Times2(initial, k - 1));
      }
    }
  }

  /** The waits are min(2^k * initial, max) for every k exactly when doubling reaches
      the cap before it leaves int64; every cap up to 2^62 does. */
  lemma BackoffExactIff(initial: int64, max: int64)
    requires initial > 0 && max > 0
    ensures (forall k: nat :: Backoff(initial, max, k) == Doubled(initial, max, k)) <==> Peak(initial) >= max
    ensures 2 * max <= TWO63 ==> Peak(initial) >= max
  {
    if Peak(initial) >= max {
      forall k: nat ensures Backoff(initial, max, k) == Doubled(initial, max, k) {
        BackoffIsDoubled(initial, max, k);
      }
    } else {
      var k := PeakIsDoubling(initial);
      var p := Peak(initial);
      if Backoff(initial, max, k) == Doubled(initial, max, k) {
        assert Backoff(initial, max, k) == p;
        assert Wrap64(2 * p) == 2 * p - TWO64;
        assert Backoff(initial, max, k + 1) < 0;
        assert Backoff(initial, max, k + 1) != Doubled(initial, max, k + 1);
      }
    }
  }

  // ---- the machine ----

  datatype Reason = TooLong(at: int) | TooMany(now: int)

  /** What an observer sees. */
  datatype Event =
    | Up                             // an attempt ended well: every budget is replenished
    | Down(at: int)                  // the connection was found missing
    | Found                          // a connection was found
    | Attempt(asked: Strategy, strategy: Strategy, at: int, deadline: int, healthy: bool, now: int, stamp: int)
    | Slept(d: int)
    | GaveUp(why: Reason)

  datatype Phase = Looking | Attempting(strategy: Strategy) | Waiting | Stopped

  /** `clock` is the limiter's last reading of the monotonic clock. */
  datatype Call = Call(
    next: Strategy, since: int, fast: uint32, backoff: int64, events: seq<int>,
    clock: int, phase: Phase, past: seq<Event>)

  /** What one pass without a connection reads from outside: the wall clock when it
      notes the outage, checks the timeout and judges a fast reconnect, how far the
      limiter's clock has moved at its two readings, and the state of both peers. */
  datatype Pass = Pass(seen: int, checked: int, judged: int, secs: int, publisher: bool, subscriber: bool,
                       waited: nat, gap: nat)

  datatype Action =
    | FindNone(p: Pass)
    | AttemptEnds(ok: bool)
    | FindConnection
    | Lost(at: int)
    | MigrateAsked
    | Poll
    | Told(s: Strategy)              // setReconnectStrategyAndDisconnect, at any time

  function Start(cfg: Config, next: Strategy): Call { Call(next, 0, 0, cfg.initial, [], 0, Looking, [Up]) }

  function Tell(c: Call, e: Event): Call { c.(past := c.past + [e]) }

  function MarkDisconnected(c: Call, at: int): Call {
    Tell(if c.since == 0 then c.(since := at) else c, Down(at))
  }

  predicate FastPossible(cfg: Config, c: Call, p: Pass) {
    && c.fast < Trunc32(cfg.maxFast)
    && (c.since == 0 || p.judged - c.since <= Deadline(cfg, p.secs))
    && p.publisher && p.subscriber
  }

  function Select(cfg: Config, c: Call, p: Pass, requested: Strategy): Strategy {
    if requested == FAST && !FastPossible(cfg, c, p) then REJOIN else requested
  }

  function Abandon(c: Call, why: Reason): Call {
    Tell(c.(next := DISCONNECT, phase := Stopped), GaveUp(why))
  }

  function Dispatch(cfg: Config, c: Call, p: Pass, asked: Strategy, s: Strategy): Call {
    var e := Attempt(asked, s, p.judged, Deadline(cfg, p.secs), p.publisher && p.subscriber,
                     c.clock + p.waited, c.clock + p.waited + p.gap);
    Tell(c.(phase := Attempting(s), fast := if s == FAST then Trunc32(c.fast + 1) else c.fast), e)
  }

  /** Choose a strategy and begin the attempt, or give up. */
  function Begin(cfg: Config, c: Call, p: Pass): Call {
    var asked := if c.next < FAST then REJOIN else c.next;
    var s := Select(cfg, c, p, asked);
    if ConsumesRejoinBudget(s) then
      var now := c.clock + p.waited;
      var a := SlidingWindow.Admit(cfg.rejoinLimit, cfg.rejoinWindow, c.events, now, now + p.gap);
      if a.ok then Dispatch(cfg, c, p, asked, s).(events := a.events, clock := now + p.gap)
      else Abandon(c.(events := a.events, clock := now), TooMany(now))
    else Dispatch(cfg, c, p, asked, s)
  }

  function NoConnection(cfg: Config, was: Call, p: Pass): Call {
    var c := MarkDisconnected(was, p.seen);
    if cfg.timeout > 0 && p.checked - c.since > cfg.timeout then Abandon(c, TooLong(p.checked))
    else if c.next == DISCONNECT then c.(phase := Stopped)
    else Begin(cfg, c, p)
  }

  function Failed(cfg: Config, c: Call): Call {
    var b := NextBackoff(cfg.maxBackoff, c.backoff);
    Tell(c.(backoff := b, next := Escalate(c.next), phase := Looking), Slept(c.backoff))
  }

  /** markConnected, and the first backoff again. */
  function Succeeded(cfg: Config, c: Call): Call {
    Tell(c.(since := 0, fast := 0, events := [], backoff := cfg.initial, phase := Looking), Up)
  }

  function Step(cfg: Config, c: Call, a: Action): Call {
    match a
    case FindNone(p) => if c.phase.Looking? then NoConnection(cfg, c, p) else c
    case AttemptEnds(ok) =>
      if !c.phase.Attempting? then c
      else if Ends(c.phase.strategy, ok) then Succeeded(cfg, c)
      else Failed(cfg, c)
    case FindConnection =>
      if !c.phase.Looking? then c
      else if c.next == DISCONNECT then Tell(c.(phase := Stopped), Found)
      else Tell(c.(next := FAST, phase := Waiting), Found)
    case Lost(at) => if c.phase.Waiting? then MarkDisconnected(c, at).(phase := Looking) else c
    case MigrateAsked => if c.phase.Waiting? then c.(next := MIGRATE, phase := Looking) else c
    case Poll => if c.phase.Waiting? then c.(phase := Looking) else c
    case Told(s) => if s == UNSPECIFIED then c else c.(next := s)
  }

  function Run(cfg: Config, c: Call, actions: seq<Action>): Call
    decreases |actions|
  {
    if actions == [] then c
    else Step(cfg, Run(cfg, c, actions[..|actions| - 1]), actions[|actions| - 1])
  }

  // ---- what the history alone says ----

  /** Where the loop's outage clock stands: the first reading since the last successful
      attempt that found the connection missing. */
  function ClockStart(past: seq<Event>): int {
    if past == [] || past[|past| - 1].Up? then 0
    else
      var before := ClockStart(past[..|past| - 1]);
      if past[|past| - 1].Down? && before == 0 then past[|past| - 1].at else before
  }

  function FastAttempts(past: seq<Event>): nat {
    if past == [] || past[|past| - 1].Up? then 0
    else
      var last := past[|past| - 1];
      FastAttempts(past[..|past| - 1]) + if last.Attempt? && last.strategy == FAST then 1 else 0
  }

  function Sleeps(past: seq<Event>): nat {
    if past == [] || past[|past| - 1].Up? then 0
    else Sleeps(past[..|past| - 1]) + if past[|past| - 1].Slept? then 1 else 0
  }

  /** When each rejoin or migration was admitted. */
  function Expensive(past: seq<Event>): seq<int> {
    if past == [] || past[|past| - 1].Up? then []
    else
      var last := past[|past| - 1];
      Expensive(past[..|past| - 1]) + if last.Attempt? && ConsumesRejoinBudget(last.strategy) then [last.stamp] else []
  }

  /** A fast reconnect is worth it: attempts left, in time, both peers healthy. */
  predicate Viable(cfg: Config, past: seq<Event>, e: Event)
    requires e.Attempt?
  {
    && FastAttempts(past) < Trunc32(cfg.maxFast)
    && (ClockStart(past) == 0 || e.at - ClockStart(past) <= e.deadline)
    && e.healthy
  }

  function RejoinsInWindow(cfg: Config, past: seq<Event>, now: int): nat {
    SlidingWindow.InWindow(Expensive(past), cfg.rejoinWindow, now)
  }

  /** Each event is the one its history calls for. */
  ghost predicate Due(cfg: Config, past: seq<Event>, e: Event) {
    match e
    case Up => true
    case Down(_) => true
    case Found => true
    case Attempt(asked, s, at, deadline, healthy, now, stamp) =>
      && asked >= FAST
      && s == (if asked == FAST && !Viable(cfg, past, e) then REJOIN else asked)
      && (ConsumesRejoinBudget(s) ==> RejoinsInWindow(cfg, past, now) < cfg.rejoinLimit)
    case Slept(d) => d == Backoff(cfg.initial, cfg.maxBackoff, Sleeps(past))
    case GaveUp(TooLong(at)) => 0 < cfg.timeout < at - ClockStart(past)
    case GaveUp(TooMany(now)) => RejoinsInWindow(cfg, past, now) >= cfg.rejoinLimit
  }

  ghost predicate Lawful(cfg: Config, past: seq<Event>) {
    forall i :: 0 <= i < |past| ==> Due(cfg, past[..i], past[i])
  }

  ghost predicate Inv(cfg: Config, c: Call) {
    && c.since == ClockStart(c.past)
    && c.fast == FastAttempts(c.past) <= Trunc32(cfg.maxFast)
    && c.backoff == Backoff(cfg.initial, cfg.maxBackoff, Sleeps(c.past))
    && SlidingWindow.Tracks(c.events, Expensive(c.past), cfg.rejoinWindow, c.clock)
    && SlidingWindow.Spaced(Expensive(c.past), cfg.rejoinLimit, cfg.rejoinWindow)
    && Lawful(cfg, c.past)
  }

  lemma TellHistory(past: seq<Event>, e: Event)
    ensures var more := past + [e];
            && ClockStart(more) ==
               (if e.Up? then 0 else if e.Down? && ClockStart(past) == 0 then e.at else ClockStart(past))
            && FastAttempts(more) ==
               (if e.Up? then 0 else FastAttempts(past) + if e.Attempt? && e.strategy == FAST then 1 else 0)
            && Sleeps(more) == (if e.Up? then 0 else Sleeps(past) + if e.Slept? then 1 else 0)
            && Expensive(more) == (if e.Up? then [] else
                 if e.Attempt? && ConsumesRejoinBudget(e.strategy) then Expensive(past) + [e.stamp]
                 else Expensive(past))
  {
    assert (past + [e])[..|past|] == past;
  }

  lemma TellLawful(cfg: Config, past: seq<Event>, e: Event)
    requires Lawful(cfg, past) && Due(cfg, past, e)
    ensures Lawful(cfg, past + [e])
  {
    hide Due;
    var more := past + [e];
    forall i | 0 <= i < |more| ensures Due(cfg, more[..i], more[i]) {
      assert more[..i] == past[..i];
      assert i == |past| ==> past[..i] == past;
    }
  }

  lemma BeginKeeps(cfg: Config, c: Call, p: Pass)
    requires Usable(cfg) && Inv(cfg, c)
    ensures Inv(cfg, Begin(cfg, c, p))
  {
    hide Lawful, SlidingWindow.Tracks, SlidingWindow.Spaced, SlidingWindow.Admit, SlidingWindow.InWindow,
         ClockStart, FastAttempts, Sleeps, Expensive, Backoff, Deadline;
    var s := Begin(cfg, c, p);
    var e := s.past[|c.past|];
    var now := c.clock + p.waited;
    TellHistory(c.past, e);
    SlidingWindow.AdmitRefines(
      cfg.rejoinLimit, cfg.rejoinWindow, c.events, Expensive(c.past), c.clock, now, now + p.gap);
    assert s.past == c.past + [e];
    assert Due(cfg, c.past, e);
    TellLawful(cfg, c.past, e);
  }

  lemma DownKeeps(cfg: Config, c: Call, at: int)
    requires Inv(cfg, c)
    ensures Inv(cfg, MarkDisconnected(c, at))
  {
    hide Lawful, SlidingWindow.Tracks, SlidingWindow.Spaced, ClockStart, FastAttempts, Sleeps, Expensive, Backoff;
    TellHistory(c.past, Down(at));
    TellLawful(cfg, c.past, Down(at));
  }

  lemma AbandonKeeps(cfg: Config, c: Call, why: Reason)
    requires Inv(cfg, c) && Due(cfg, c.past, GaveUp(why))
    ensures Inv(cfg, Abandon(c, why))
  {
    hide Lawful, SlidingWindow.Tracks, SlidingWindow.Spaced, ClockStart, FastAttempts, Sleeps, Expensive, Backoff, Due;
    TellHistory(c.past, GaveUp(why));
    TellLawful(cfg, c.past, GaveUp(why));
  }

  lemma FailedKeeps(cfg: Config, c: Call)
    requires Inv(cfg, c)
    ensures Inv(cfg, Failed(cfg, c))
  {
    hide Lawful, SlidingWindow.Tracks, SlidingWindow.Spaced, ClockStart, FastAttempts, Sleeps, Expensive, NextBackoff;
    TellHistory(c.past, Slept(c.backoff));
    TellLawful(cfg, c.past, Slept(c.backoff));
  }

  lemma UpKeeps(cfg: Config, c: Call)
    requires Inv(cfg, c)
    ensures Inv(cfg, Succeeded(cfg, c))
  {
    hide Lawful, ClockStart, FastAttempts, Sleeps, Expensive;
    TellHistory(c.past, Up);
    TellLawful(cfg, c.past, Up);
  }

  lemma StepKeeps(cfg: Config, c: Call, a: Action)
    requires Usable(cfg) && Inv(cfg, c)
    ensures Inv(cfg, Step(cfg, c, a))
  {
    hide Lawful, SlidingWindow.Tracks, SlidingWindow.Spaced, ClockStart, FastAttempts, Sleeps, Expensive, Backoff,
         Begin, Failed, Succeeded, MarkDisconnected, Abandon;
    match a
    case FindNone(p) =>
      var down := MarkDisconnected(c, p.seen);
      DownKeeps(cfg, c, p.seen);
      BeginKeeps(cfg, down, p);
      if cfg.timeout > 0 && p.checked - down.since > cfg.timeout {
        AbandonKeeps(cfg, down, TooLong(p.checked));
      }
    case AttemptEnds(ok) =>
      FailedKeeps(cfg, c);
      UpKeeps(cfg, c);
    case Lost(at) =>
      DownKeeps(cfg, c, at);
    case FindConnection =>
      TellHistory(c.past, Found);
      TellLawful(cfg, c.past, Found);
    case _ =>
  }

  lemma {:induction false} InvAlways(cfg: Config, next: Strategy, actions: seq<Action>)
    requires Usable(cfg)
    ensures Inv(cfg, Run(cfg, Start(cfg, next), actions))
    decreases |actions|
  {
    if actions != [] {
      hide Step, Inv;
      InvAlways(cfg, next, actions[..|actions| - 1]);
      StepKeeps(cfg, Run(cfg, Start(cfg, next), actions[..|actions| - 1]), actions[|actions| - 1]);
    }
  }

  /** Over every run, whatever the rest of the program stores as the next strategy: an
      attempt is FAST exactly when FAST was asked for, attempts are left, the deadline
      has not passed and both peers are healthy; the k-th wait is the k-th backoff; and
      the call is given up for lasting too long only past its timeout. All three are
      counted from the last successful attempt, found connections notwithstanding. */
  lemma EveryEventIsDue(cfg: Config, next: Strategy, actions: seq<Action>, i: nat)
    requires Usable(cfg) && i < |Run(cfg, Start(cfg, next), actions).past|
    ensures var past := Run(cfg, Start(cfg, next), actions).past;
            var e, h := past[i], past[..i];
            && (e.Attempt? ==> (e.strategy == FAST <==> e.asked == FAST && Viable(cfg, h, e)))
            && (e.Attempt? && e.strategy == FAST ==> FastAttempts(h) < cfg.maxFast)
            && (e.Attempt? && e.strategy != e.asked ==> e.asked == FAST && e.strategy == REJOIN)
            && (e.Slept? ==> e.d == Backoff(cfg.initial, cfg.maxBackoff, Sleeps(h)))
            && (e.Slept? && Peak(cfg.initial) >= cfg.maxBackoff ==>
                  e.d == Doubled(cfg.initial, cfg.maxBackoff, Sleeps(h)))
            && (e.GaveUp? && e.why.TooLong? ==> 0 < cfg.timeout < e.why.at - ClockStart(h))
  {
    hide Step, ClockStart, FastAttempts, Sleeps, Expensive, Backoff, Peak, Doubled;
    InvAlways(cfg, next, actions);
    var past := Run(cfg, Start(cfg, next), actions).past;
    assert Due(cfg, past[..i], past[i]);
    if Peak(cfg.initial) >= cfg.maxBackoff {
      BackoffIsDoubled(cfg.initial, cfg.maxBackoff, Sleeps(past[..i]));
    }
  }

  /** Over every run no period as long as the rejoin window, wherever it lies, holds
      more than the limit of rejoins and migrations since the last successful attempt;
      one is dispatched only while there is room, and refused only when there is none. */
  lemma RejoinsLimited(cfg: Config, next: Strategy, actions: seq<Action>)
    requires Usable(cfg)
    ensures var past := Run(cfg, Start(cfg, next), actions).past;
            && (forall t :: RejoinsInWindow(cfg, past, t) <= cfg.rejoinLimit)
            && (forall i :: 0 <= i < |past| && past[i].Attempt? && ConsumesRejoinBudget(past[i].strategy) ==>
                  RejoinsInWindow(cfg, past[..i], past[i].now) < cfg.rejoinLimit)
            && (forall i :: 0 <= i < |past| && past[i].GaveUp? && past[i].why.TooMany? ==>
                  RejoinsInWindow(cfg, past[..i], past[i].why.now) >= cfg.rejoinLimit)
  {
    hide Step, ClockStart, FastAttempts, Sleeps, Expensive, Backoff, SlidingWindow.InWindow, Viable;
    InvAlways(cfg, next, actions);
    var past := Run(cfg, Start(cfg, next), actions).past;
    SlidingWindow.SpacedIff(Expensive(past), cfg.rejoinLimit, cfg.rejoinWindow);
    assert forall i :: 0 <= i < |past| ==> Due(cfg, past[..i], past[i]);
  }

  // ---- the outage as it is ----

  /** When the present outage began: the first reading, since an attempt last ended well
      or a connection was last found, that found the connection missing. */
  function OutageStart(past: seq<Event>): int {
    if past == [] || past[|past| - 1].Up? || past[|past| - 1].Found? then 0
    else
      var before := OutageStart(past[..|past| - 1]);
      if past[|past| - 1].Down? && before == 0 then past[|past| - 1].at else before
  }

  /** The wall clock is past its epoch and does not go back. */
  ghost predicate Clocked(past: seq<Event>) {
    forall i, j :: 0 <= i <= j < |past| && past[i].Down? && past[j].Down? ==> 0 < past[i].at <= past[j].at
  }

  lemma TellOutage(past: seq<Event>, e: Event)
    ensures OutageStart(past + [e]) ==
      if e.Up? || e.Found? then 0 else if e.Down? && OutageStart(past) == 0 then e.at else OutageStart(past)
  {
    assert (past + [e])[..|past|] == past;
  }

  /** The loop's clock never starts after the outage. */
  lemma {:induction false} ClockLeads(past: seq<Event>)
    requires Clocked(past)
    ensures ClockStart(past) == 0 ==> OutageStart(past) == 0
    ensures OutageStart(past) != 0 ==> 0 < ClockStart(past) <= OutageStart(past)
    ensures ClockStart(past) != 0 ==> exists i :: 0 <= i < |past| && past[i] == Down(ClockStart(past))
    decreases |past|
  {
    if past != [] {
      var init, last := past[..|past| - 1], past[|past| - 1];
      ClockLeads(init);
      if ClockStart(past) != 0 {
        if last.Down? && ClockStart(init) == 0 {
          assert past[|past| - 1] == Down(ClockStart(past));
        } else {
          var i :| 0 <= i < |init| && init[i] == Down(ClockStart(init));
          assert past[i] == Down(ClockStart(past));
        }
      }
    }
  }

  /** Over every run whose wall clock does not go back, FAST is never dispatched with its
      attempts spent, or past its deadline counted from the first moment of the outage. */
  lemma FastInTime(cfg: Config, next: Strategy, actions: seq<Action>, i: nat)
    requires Usable(cfg) && i < |Run(cfg, Start(cfg, next), actions).past|
    requires Clocked(Run(cfg, Start(cfg, next), actions).past[..i])
    ensures var past := Run(cfg, Start(cfg, next), actions).past;
            var e, h := past[i], past[..i];
            e.Attempt? && e.strategy == FAST ==>
              FastAttempts(h) < cfg.maxFast && (OutageStart(h) == 0 || e.at - OutageStart(h) <= e.deadline)
  {
    hide Run, ClockStart, OutageStart, FastAttempts, Sleeps, Backoff, Peak, Doubled, Clocked;
    EveryEventIsDue(cfg, next, actions, i);
    ClockLeads(Run(cfg, Start(cfg, next), actions).past[..i]);
  }

  /** An outage is just beginning: it has not been noticed, or only just. */
  ghost predicate Begins(past: seq<Event>) {
    OutageStart(past) == 0 || past[|past| - 1] == Down(OutageStart(past))
  }

  /** A pass whose clocks go on from the history's. */
  ghost predicate Onward(c: Call, p: Pass) { Clocked(c.past + [Down(p.seen)]) && p.seen <= p.checked <= p.judged }

  /** By the outage itself, FAST is in time and the call need not be given up yet. */
  predicate FastIsDue(cfg: Config, c: Call, p: Pass) {
    var start := OutageStart(c.past + [Down(p.seen)]);
    && p.publisher && p.subscriber && p.judged - start <= Deadline(cfg, p.secs)
    && (cfg.timeout > 0 ==> p.checked - start <= cfg.timeout)
  }

  /** FAST is dispatched whenever it is due. */
  ghost predicate HonoursFast(cfg: Config, c: Call, p: Pass) {
    Onward(c, p) && FastIsDue(cfg, c, p) ==> Step(cfg, c, FindNone(p)).phase == Attempting(FAST)
  }

  /** When an outage begins with FAST stored, the loop tries FAST whenever it is due,
      whatever it reads, if and only if its clock stands where the outage began and
      attempts are left: what an earlier failure left running or spent makes it give up
      or rejoin. */
  lemma HonoursFastIff(cfg: Config, c: Call)
    requires Usable(cfg) && Inv(cfg, c) && Clocked(c.past) && Begins(c.past)
    requires c.phase.Looking? && c.next == FAST
    ensures (forall p :: HonoursFast(cfg, c, p)) <==>
      c.since == OutageStart(c.past) && c.fast < Trunc32(cfg.maxFast)
  {
    if c.since == OutageStart(c.past) && c.fast < Trunc32(cfg.maxFast) {
      forall p ensures HonoursFast(cfg, c, p) { InTimeIsTried(cfg, c, p); }
    } else {
      var p := LeftoverRefuses(cfg, c);
      assert !HonoursFast(cfg, c, p);
    }
  }

  lemma InTimeIsTried(cfg: Config, c: Call, p: Pass)
    requires c.since == OutageStart(c.past) && c.phase.Looking? && c.next == FAST && c.fast < Trunc32(cfg.maxFast)
    ensures HonoursFast(cfg, c, p)
  {
    hide Deadline, OutageStart, Onward;
    TellOutage(c.past, Down(p.seen));
  }

  lemma LeftoverRefuses(cfg: Config, c: Call) returns (p: Pass)
    requires Usable(cfg) && Inv(cfg, c) && Clocked(c.past) && Begins(c.past)
    requires c.phase.Looking? && c.next == FAST
    requires c.since != OutageStart(c.past) || c.fast >= Trunc32(cfg.maxFast)
    ensures !HonoursFast(cfg, c, p)
  {
    hide Inv, ClockStart, OutageStart;
    assert c.since == ClockStart(c.past) by { ClockIsSince(cfg, c); }
    ClockLeads(c.past);
    var start := OutageStart(c.past);
    if start == 0 {
      start := LaterThan(c.past);
    } else {
      LastIsLatest(c.past);
    }
    p := Pass(start, start, start + cfg.fallback, 0, true, true, 0, 0);
    TellOutage(c.past, Down(start));
    assert Onward(c, p);
    assert FastIsDue(cfg, c, p);
    var d := Step(cfg, c, FindNone(p));
    assert !FastPossible(cfg, MarkDisconnected(c, start), p);
  }

  lemma ClockIsSince(cfg: Config, c: Call)
    requires Inv(cfg, c)
    ensures c.since == ClockStart(c.past)
  {
  }

  /** A reading later than every one so far. */
  lemma {:induction false} LaterThan(past: seq<Event>) returns (t: int)
    requires Clocked(past)
    ensures t > ClockStart(past) && t > 0 && Clocked(past + [Down(t)])
  {
    t := Bound(past);
    ClockLeads(past);
    if ClockStart(past) != 0 {
      var i :| 0 <= i < |past| && past[i] == Down(ClockStart(past));
    }
  }

  lemma {:induction false} Bound(past: seq<Event>) returns (t: int)
    ensures t > 0 && forall i :: 0 <= i < |past| && past[i].Down? ==> past[i].at < t
    decreases |past|
  {
    t := 1;
    if past != [] {
      var init, last := past[..|past| - 1], past[|past| - 1];
      t := Bound(init);
      if last.Down? && last.at >= t { t := last.at + 1; }
    }
  }

  lemma LastIsLatest(past: seq<Event>)
    requires Clocked(past) && past != [] && past[|past| - 1].Down?
    ensures Clocked(past + [Down(past[|past| - 1].at)])
  {
  }

  /** The wall clock moves between any two readings that find no connection. */
  ghost predicate Ticking(past: seq<Event>) {
    && Clocked(past)
    && forall i, j :: 0 <= i < j < |past| && past[i].Down? && past[j].Down? ==> past[i].at != past[j].at
  }

  /** Every attempt comes right after a reading that found no connection. */
  ghost predicate Paced(past: seq<Event>) {
    forall i :: 0 <= i < |past| && past[i].Attempt? ==> i > 0 && past[i - 1].Down?
  }

  lemma PacedStep(cfg: Config, c: Call, a: Action)
    requires Paced(c.past)
    ensures Paced(Step(cfg, c, a).past)
  {
    hide NextBackoff, Deadline, SlidingWindow.Admit, FastPossible, Escalate;
  }

  lemma {:induction false} PacedAlways(cfg: Config, next: Strategy, actions: seq<Action>)
    ensures Paced(Run(cfg, Start(cfg, next), actions).past)
    decreases |actions|
  {
    if actions != [] {
      hide Step, Paced;
      PacedAlways(cfg, next, actions[..|actions| - 1]);
      PacedStep(cfg, Run(cfg, Start(cfg, next), actions[..|actions| - 1]), actions[|actions| - 1]);
    }
  }

  /** Before the clock runs nothing has been attempted. */
  lemma {:induction false} NoEarlyAttempts(past: seq<Event>)
    requires Clocked(past) && Paced(past) && ClockStart(past) == 0
    ensures FastAttempts(past) == 0
    decreases |past|
  {
    if past != [] && !past[|past| - 1].Up? {
      var init, last := past[..|past| - 1], past[|past| - 1];
      assert !last.Attempt?;
      NoEarlyAttempts(init);
    }
  }

  /** Where the clock stands where the outage began, the attempts are all left. */
  lemma ClockMeansAttempts(past: seq<Event>)
    requires Ticking(past) && Paced(past) && Begins(past) && ClockStart(past) == OutageStart(past)
    ensures FastAttempts(past) == 0
  {
    hide FastAttempts;
    if OutageStart(past) == 0 {
      NoEarlyAttempts(past);
    } else {
      var init, last := past[..|past| - 1], past[|past| - 1];
      assert past == init + [last];
      TellHistory(init, last);
      ClockLeads(init);
      assert forall i :: 0 <= i < |init| ==> past[i] == init[i];
      assert ClockStart(init) == 0;
      NoEarlyAttempts(init);
    }
  }

  /** Over every run whose wall clock moves between readings the attempts need no mention:
      when an outage begins with FAST stored, FAST is tried whenever it is due if and only
      if the loop's clock stands where the outage began (and the budget, cut to 32 bits, is
      not zero). */
  lemma HonoursFastByClock(cfg: Config, next: Strategy, actions: seq<Action>)
    requires Usable(cfg)
    requires var c := Run(cfg, Start(cfg, next), actions);
      Ticking(c.past) && Begins(c.past) && c.phase.Looking? && c.next == FAST
    ensures var c := Run(cfg, Start(cfg, next), actions);
      (forall p :: HonoursFast(cfg, c, p)) <==> c.since == OutageStart(c.past) && Trunc32(cfg.maxFast) > 0
  {
    hide Run, HonoursFast, Begins, ClockStart, OutageStart, FastAttempts;
    var c := Run(cfg, Start(cfg, next), actions);
    InvAlways(cfg, next, actions);
    PacedAlways(cfg, next, actions);
    HonoursFastIff(cfg, c);
    if c.since == OutageStart(c.past) {
      assert c.since == ClockStart(c.past) && c.fast == FastAttempts(c.past) by { CountsAreKept(cfg, c); }
      ClockMeansAttempts(c.past);
    }
  }

  lemma CountsAreKept(cfg: Config, c: Call)
    requires Inv(cfg, c)
    ensures c.since == ClockStart(c.past) && c.fast == FastAttempts(c.past)
  {
  }

  const REJOINED := Pass(1, 1, 1, 0, true, true, 0, 0)
  const AGAIN := Pass(10_000_000_000_001, 10_000_000_000_002, 10_000_000_000_002, 0, true, true, 0, 0)

  /** A rejoin that opens the connection and then fails, the connection found, working for
      hours, and lost. */
  const LEFT_RUNNING :=
    [FindNone(REJOINED), AttemptEnds(false), FindConnection, Lost(10_000_000_000_000), FindNone(AGAIN)]

  const BEFORE_LOSS := [Up, Down(1), Attempt(REJOIN, REJOIN, 1, 3_000_000_000, true, 0, 0), Slept(100_000_000), Found]

  lemma LeftRunning(cfg: Config)
    requires cfg == DEFAULTS.(timeout := cfg.timeout) && cfg.timeout >= 0
    ensures Run(cfg, Start(cfg, REJOIN), LEFT_RUNNING[..4])
         == Call(FAST, 1, 0, 200_000_000, [0], 0, Looking, BEFORE_LOSS + [Down(10_000_000_000_000)])
  {
    var a := LEFT_RUNNING;
    assert a[..4][..3] == a[..3] && a[..3][..2] == a[..2] && a[..2][..1] == a[..1] && a[..1][..0] == [];
    var c0 := Start(cfg, REJOIN);
    var c1 := Step(cfg, c0, a[0]);
    assert Run(cfg, c0, a[..1]) == c1;
    assert SlidingWindow.Evict([], -120_000_000_000) == [];
    assert c1 == Call(REJOIN, 1, 0, 100_000_000, [0], 0, Attempting(REJOIN), BEFORE_LOSS[..3]);
    var c2 := Step(cfg, c1, a[1]);
    assert Run(cfg, c0, a[..2]) == c2;
    assert c2 == Call(REJOIN, 1, 0, 200_000_000, [0], 0, Looking, BEFORE_LOSS[..4]);
    var c3 := Step(cfg, c2, a[2]);
    assert Run(cfg, c0, a[..3]) == c3;
    assert c3 == Call(FAST, 1, 0, 200_000_000, [0], 0, Waiting, BEFORE_LOSS);
    assert Run(cfg, c0, a[..4]) == Step(cfg, c3, a[3]);
  }

  /** With a timeout of a minute the call is then given up two nanoseconds into the outage;
      without one, a healthy FAST within its deadline is refused, and the first wait is to
      be twice the initial one. */
  lemma FoundConnectionKeepsClock()
    ensures var cfg := DEFAULTS.(timeout := 60_000_000_000);
            Run(cfg, Start(cfg, REJOIN), LEFT_RUNNING).past ==
              BEFORE_LOSS + [Down(10_000_000_000_000), Down(10_000_000_000_001), GaveUp(TooLong(10_000_000_000_002))]
    ensures var c := Run(DEFAULTS, Start(DEFAULTS, REJOIN), LEFT_RUNNING);
            c.phase == Attempting(REJOIN) && c.backoff == 2 * DEFAULTS.initial
    ensures OutageStart(BEFORE_LOSS + [Down(10_000_000_000_000)]) == 10_000_000_000_000
  {
    hide SlidingWindow.Admit, SlidingWindow.Evict;
    LeftRunning(DEFAULTS);
    LeftRunning(DEFAULTS.(timeout := 60_000_000_000));
    TellOutage(BEFORE_LOSS, Down(10_000_000_000_000));
    RoomForOne();
  }

  lemma RoomForOne()
    ensures SlidingWindow.Admit(DEFAULTS.rejoinLimit, DEFAULTS.rejoinWindow, [0], 0, 0).ok
  {
  }

  // ---- one outage without outside interference ----

  /** One pass whose attempt, if it makes one that can fail, fails. */
  function Round(cfg: Config, c: Call, p: Pass): Call { Step(cfg, Step(cfg, c, FindNone(p)), AttemptEnds(false)) }

  /** The passes of a stretch in which every attempt fails that can, no connection is found
      and nobody else stores a strategy. */
  function Outage(cfg: Config, c: Call, passes: seq<Pass>): Call
    decreases |passes|
  {
    if passes == [] then c
    else Outage(cfg, Round(cfg, c, passes[0]), passes[1..])
  }

  /** The strategies dispatched so far, and the waits. */
  function Tried(past: seq<Event>): seq<Strategy> {
    if past == [] then []
    else Tried(past[..|past| - 1]) + if past[|past| - 1].Attempt? then [past[|past| - 1].strategy] else []
  }

  function Waits(past: seq<Event>): seq<int> {
    if past == [] then []
    else Waits(past[..|past| - 1]) + if past[|past| - 1].Slept? then [past[|past| - 1].d] else []
  }

  lemma TellTried(past: seq<Event>, e: Event)
    ensures Tried(past + [e]) == if e.Attempt? then Tried(past) + [e.strategy] else Tried(past)
    ensures Waits(past + [e]) == if e.Slept? then Waits(past) + [e.d] else Waits(past)
  {
    assert (past + [e])[..|past|] == past;
  }

  /** From here on only REJOIN is dispatched. */
  predicate Settled(s: Strategy) { s == REJOIN || s < FAST }

  /** What may be dispatched when `next` is stored. */
  predicate MayTry(next: Strategy, s: Strategy) {
    if next < FAST then s == REJOIN else s == next || (next == FAST && s == REJOIN)
  }

  /** A pass up to its attempt: at most one is dispatched. */
  lemma PassEffect(cfg: Config, c: Call, p: Pass)
    requires c.phase.Looking?
    ensures var b := Step(cfg, c, FindNone(p));
            && (b.phase.Attempting? || b.phase.Stopped?) && Waits(b.past) == Waits(c.past) && b.backoff == c.backoff
            && (b.phase.Stopped? ==> Tried(b.past) == Tried(c.past))
            && (b.phase.Attempting? ==>
                  && b.next == c.next && Tried(b.past) == Tried(c.past) + [b.phase.strategy]
                  && MayTry(c.next, b.phase.strategy))
  {
    hide Tried, Waits, FastPossible, SlidingWindow.Admit, Deadline;
    var down := MarkDisconnected(c, p.seen);
    TellTried(c.past, Down(p.seen));
    var b := Step(cfg, c, FindNone(p));
    if |b.past| > |down.past| {
      TellTried(down.past, b.past[|down.past|]);
    }
  }

  /** One pass and its failure. */
  lemma RoundEffect(cfg: Config, c: Call, p: Pass)
    requires c.phase.Looking? || c.phase.Stopped?
    ensures var d := Round(cfg, c, p);
            && (d.phase.Looking? || d.phase.Stopped?)
            && (c.phase.Stopped? ==> d == c)
            && (d.phase.Stopped? ==> Tried(d.past) == Tried(c.past) && Waits(d.past) == Waits(c.past))
            && (d.phase.Looking? ==> d.next == Escalate(c.next))
            && (d.phase.Looking? ==> exists s :: Tried(d.past) == Tried(c.past) + [s] && MayTry(c.next, s))
            && (d.phase.Looking? && c.next <= MIGRATE ==>
                  Waits(d.past) == Waits(c.past) + [c.backoff] && d.backoff == NextBackoff(cfg.maxBackoff, c.backoff))
  {
    hide Tried, Waits, NextBackoff, NoConnection;
    if c.phase.Looking? {
      PassEffect(cfg, c, p);
      var b := Step(cfg, c, FindNone(p));
      if b.phase.Attempting? {
        TellTried(b.past, Slept(b.backoff));
        TellTried(b.past, Up);
        assert Tried(Round(cfg, c, p).past) == Tried(c.past) + [b.phase.strategy];
      }
    }
  }

  lemma {:induction false} SettledOutage(cfg: Config, c: Call, passes: seq<Pass>) returns (tried: seq<Strategy>)
    requires (c.phase.Looking? || c.phase.Stopped?) && Settled(c.next)
    ensures Tried(Outage(cfg, c, passes).past) == Tried(c.past) + tried
    ensures forall i :: 0 <= i < |tried| ==> tried[i] == REJOIN
    decreases |passes|
  {
    tried := [];
    if passes != [] {
      hide Tried, Waits, Round;
      RoundEffect(cfg, c, passes[0]);
      var d := Round(cfg, c, passes[0]);
      if d.phase.Looking? {
        var rest := SettledOutage(cfg, d, passes[1..]);
        assert Tried(c.past) + [REJOIN] + rest == Tried(c.past) + ([REJOIN] + rest);
        tried := [REJOIN] + rest;
      } else {
        StoppedOutage(cfg, d, passes[1..]);
      }
    }
  }

  lemma {:induction false} StoppedOutage(cfg: Config, c: Call, passes: seq<Pass>)
    requires c.phase.Stopped?
    ensures Outage(cfg, c, passes) == c
    decreases |passes|
  {
    if passes != [] { StoppedOutage(cfg, c, passes[1..]); }
  }

  /** In a stretch without connection or outside change only the first attempt may be
      FAST or MIGRATE; all later ones are REJOIN. */
  lemma LaterAttemptsRejoin(cfg: Config, c: Call, passes: seq<Pass>) returns (tried: seq<Strategy>)
    requires c.phase.Looking? && c.next <= MIGRATE
    ensures Tried(Outage(cfg, c, passes).past) == Tried(c.past) + tried
    ensures |tried| > 0 ==> tried[0] in {FAST, REJOIN, MIGRATE}
    ensures forall i :: 1 <= i < |tried| ==> tried[i] == REJOIN
  {
    tried := [];
    if passes != [] {
      hide Tried, Waits, Round;
      RoundEffect(cfg, c, passes[0]);
      var d := Round(cfg, c, passes[0]);
      if d.phase.Looking? {
        var s :| Tried(d.past) == Tried(c.past) + [s] && MayTry(c.next, s);
        var rest := SettledOutage(cfg, d, passes[1..]);
        assert Tried(c.past) + [s] + rest == Tried(c.past) + ([s] + rest);
        tried := [s] + rest;
      } else {
        StoppedOutage(cfg, d, passes[1..]);
      }
    }
  }

  /** Every attempt of a stretch after its first is REJOIN. */
  ghost predicate RejoinsAfterFirst(cfg: Config, c: Call, passes: seq<Pass>) {
    var all := Tried(Outage(cfg, c, passes).past);
    forall i :: |Tried(c.past)| < i < |all| ==> all[i] == REJOIN
  }

  // ---- strategies without a name ----

  /** The pass finds the outage longer than the call may last. */
  predicate Outlasts(cfg: Config, since: int, p: Pass) {
    cfg.timeout > 0 && p.checked - (if since == 0 then p.seen else since) > cfg.timeout
  }

  function Repeat(s: Strategy, n: nat): (r: seq<Strategy>)
    ensures |r| == n
  {
    seq(n, _ => s)
  }

  lemma UnnamedRound(cfg: Config, c: Call, p: Pass)
    requires c.phase.Looking? && c.next > MIGRATE && !Outlasts(cfg, c.since, p)
    ensures var d := Round(cfg, c, p);
            && d == c.(since := 0, fast := 0, events := [], backoff := cfg.initial, past := d.past)
            && Tried(d.past) == Tried(c.past) + [c.next] && Waits(d.past) == Waits(c.past)
  {
    hide Tried, Waits, Deadline;
    PassEffect(cfg, c, p);
    TellTried(Step(cfg, c, FindNone(p)).past, Up);
  }

  /** A strategy above the named ones counts as success without doing anything: pass after
      pass it is dispatched again, with no connection, no wait and no limiter, and every
      time every budget is replenished. */
  lemma {:induction false} UnnamedLoops(cfg: Config, c: Call, passes: seq<Pass>)
    requires c.phase.Looking? && c.next > MIGRATE
    requires passes != [] ==> !Outlasts(cfg, c.since, passes[0])
    requires forall i :: 1 <= i < |passes| ==> !Outlasts(cfg, 0, passes[i])
    ensures var d := Outage(cfg, c, passes);
            && d.phase.Looking? && d.next == c.next && d.clock == c.clock
            && Tried(d.past) == Tried(c.past) + Repeat(c.next, |passes|) && Waits(d.past) == Waits(c.past)
            && (passes != [] ==> d.since == 0 && d.fast == 0 && d.events == [] && d.backoff == cfg.initial)
    decreases |passes|
  {
    hide Tried, Waits, Round, Outlasts;
    if passes == [] {
      assert Tried(c.past) + [] == Tried(c.past);
    } else {
      UnnamedRound(cfg, c, passes[0]);
      var rest := passes[1..];
      UnnamedLoops(cfg, Round(cfg, c, passes[0]), rest);
      assert Repeat(c.next, |passes|) == [c.next] + Repeat(c.next, |rest|);
      assert Tried(c.past) + [c.next] + Repeat(c.next, |rest|) == Tried(c.past) + ([c.next] + Repeat(c.next, |rest|));
    }
  }

  /** However long the stretch and whatever its clocks and budgets, all attempts after
      the first are REJOIN exactly when the strategy it starts with is not above the named
      ones. */
  lemma LaterAttemptsRejoinIff(cfg: Config, c: Call)
    requires c.phase.Looking?
    ensures (forall passes :: RejoinsAfterFirst(cfg, c, passes)) <==> c.next <= MIGRATE
  {
    hide Tried, Outage;
    if c.next <= MIGRATE {
      forall passes ensures RejoinsAfterFirst(cfg, c, passes) {
        var tried := LaterAttemptsRejoin(cfg, c, passes);
      }
    } else {
      var start := if c.since == 0 then 1 else c.since;
      var p := Pass(1, start, start, 0, true, true, 0, 0);
      var q := Pass(1, 1, 1, 0, true, true, 0, 0);
      UnnamedLoops(cfg, c, [p, q]);
      var all := Tried(c.past) + Repeat(c.next, 2);
      assert all[|Tried(c.past)| + 1] == c.next;
      assert !RejoinsAfterFirst(cfg, c, [p, q]);
    }
  }

  /** From DISCONNECT or below a stretch ends by itself: every failure is one step towards
      DISCONNECT, where the loop stops. UNSPECIFIED is one failure away. */
  lemma {:induction false} BelowNamedStops(cfg: Config, c: Call, passes: seq<Pass>)
    requires (c.phase.Looking? || c.phase.Stopped?) && c.next < FAST && |passes| > DISCONNECT - c.next
    ensures Outage(cfg, c, passes).phase.Stopped?
    decreases |passes|
  {
    hide Tried, Waits, Round;
    var d := Round(cfg, c, passes[0]);
    RoundEffect(cfg, c, passes[0]);
    if d.phase.Stopped? {
      StoppedOutage(cfg, d, passes[1..]);
    } else {
      DisconnectStops(cfg, c, passes[0]);
      BelowNamedStops(cfg, d, passes[1..]);
    }
  }

  // ---- what is asked for is tried ----

  /** The pass ends in an attempt, or gives the call up for lasting too long or for too
      many rejoins. */
  predicate Tries(c: Call, s: Strategy) {
    c.phase == Attempting(s) || (c.phase.Stopped? && c.past != [] && c.past[|c.past| - 1].GaveUp?)
  }

  function After2(cfg: Config, c: Call, a: Action, b: Action): Call { Step(cfg, Step(cfg, c, a), b) }

  /** A strategy that the rest of the program stores is tried by the next pass that finds
      no connection, unless the call is given up in it; FAST becomes REJOIN if it cannot
      work, and DISCONNECT stops the loop, connection or not. */
  lemma ToldIsTried(cfg: Config, c: Call, s: Strategy, p: Pass)
    requires c.phase.Looking?
    ensures REJOIN <= s ==> Tries(After2(cfg, c, Told(s), FindNone(p)), s)
    ensures s == FAST ==>
      var d := After2(cfg, c, Told(s), FindNone(p));
      Tries(d, if FastPossible(cfg, MarkDisconnected(c, p.seen), p) then FAST else REJOIN)
    ensures s == DISCONNECT ==>
      && After2(cfg, c, Told(s), FindNone(p)).phase.Stopped?
      && After2(cfg, c, Told(s), FindConnection).phase.Stopped?
  {
    hide SlidingWindow.Admit, Deadline;
  }

  /** A migration asked for on a live connection is tried by the next pass. */
  lemma MigrateIsTried(cfg: Config, c: Call, p: Pass)
    requires c.phase.Waiting?
    ensures Tries(After2(cfg, c, MigrateAsked, FindNone(p)), MIGRATE)
  {
    hide SlidingWindow.Admit, Deadline;
  }

  /** A connection found and lost is first tried FAST if that can work. */
  lemma FoundIsTriedFast(cfg: Config, c: Call, at: int, p: Pass)
    requires c.phase.Looking? && c.next != DISCONNECT
    ensures var lost := After2(cfg, c, FindConnection, Lost(at));
      Tries(Step(cfg, lost, FindNone(p)),
            if FastPossible(cfg, MarkDisconnected(lost, p.seen), p) then FAST else REJOIN)
  {
    hide SlidingWindow.Admit, Deadline;
  }

  /** A step that gives the call up stores DISCONNECT and stops the loop. */
  lemma GivingUpDisconnects(cfg: Config, c: Call, a: Action)
    requires !c.phase.Stopped?
    ensures var d := Step(cfg, c, a);
      |d.past| > |c.past| && d.past[|d.past| - 1].GaveUp? ==> d.next == DISCONNECT && d.phase.Stopped?
  {
    hide SlidingWindow.Admit, Deadline, Escalate, NextBackoff;
  }

  /** A loop that has stopped does nothing more. */
  lemma {:induction false} StoppedStays(cfg: Config, c: Call, actions: seq<Action>)
    requires c.phase.Stopped?
    ensures var d := Run(cfg, c, actions); d.phase.Stopped? && d.past == c.past
    decreases |actions|
  {
    if actions != [] { StoppedStays(cfg, c, actions[..|actions| - 1]); }
  }

  lemma DisconnectStops(cfg: Config, c: Call, p: Pass)
    requires c.phase.Looking? || c.phase.Stopped?
    ensures c.next == DISCONNECT ==> Round(cfg, c, p).phase.Stopped?
  {
  }

  /** From FAST, REJOIN or MIGRATE it ends only by giving up. */
  lemma {:induction false} NamedStopsOnlyByGivingUp(cfg: Config, c: Call, passes: seq<Pass>)
    requires c.phase.Looking? && FAST <= c.next <= MIGRATE
    ensures var d := Outage(cfg, c, passes);
            d.phase.Looking? || (d.phase.Stopped? && d.past != [] && d.past[|d.past| - 1].GaveUp?)
    decreases |passes|
  {
    if passes != [] {
      var d := Round(cfg, c, passes[0]);
      RoundStops(cfg, c, passes[0]);
      hide Round, Escalate;
      if d.phase.Looking? {
        NamedStopsOnlyByGivingUp(cfg, d, passes[1..]);
      } else {
        StoppedOutage(cfg, d, passes[1..]);
      }
    }
  }

  lemma RoundStops(cfg: Config, c: Call, p: Pass)
    requires c.phase.Looking? && FAST <= c.next <= MIGRATE
    ensures var d := Round(cfg, c, p);
            && (d.phase.Looking? ==> FAST <= d.next <= MIGRATE)
            && (!d.phase.Looking? ==> d.phase.Stopped? && d.past != [] && d.past[|d.past| - 1].GaveUp?)
  {
    hide SlidingWindow.Admit, NextBackoff, Deadline, FastPossible;
  }

  // ---- the waits of a stretch ----

  lemma RoundWaits(cfg: Config, c: Call, p: Pass)
    requires (c.phase.Looking? || c.phase.Stopped?) && c.next <= MIGRATE
    ensures var d := Round(cfg, c, p);
            if d.phase.Looking? then
              && d.next <= MIGRATE && Waits(d.past) == Waits(c.past) + [c.backoff]
              && d.backoff == NextBackoff(cfg.maxBackoff, c.backoff)
            else d.phase.Stopped? && Waits(d.past) == Waits(c.past)
  {
    hide Tried, Waits, Round, NextBackoff;
    RoundEffect(cfg, c, p);
  }

  lemma OutageStep(cfg: Config, c: Call, passes: seq<Pass>)
    requires passes != []
    ensures Outage(cfg, c, passes) == Outage(cfg, Round(cfg, c, passes[0]), passes[1..])
  {
  }

  /** The waits of a stretch double from the backoff it begins with. */
  lemma {:induction false} StretchWaits(cfg: Config, c: Call, passes: seq<Pass>) returns (waits: seq<int>)
    requires (c.phase.Looking? || c.phase.Stopped?) && c.next <= MIGRATE
    ensures Waits(Outage(cfg, c, passes).past) == Waits(c.past) + waits
    ensures forall k :: 0 <= k < |waits| ==> waits[k] == Backoff(c.backoff, cfg.maxBackoff, k)
    decreases |passes|
  {
    waits := [];
    if passes == [] {
      hide Waits, Round;
    } else {
      hide *;
      RoundWaits(cfg, c, passes[0]);
      OutageStep(cfg, c, passes);
      var d := Round(cfg, c, passes[0]);
      if d.phase.Looking? {
        var rest := StretchWaits(cfg, d, passes[1..]);
        assert Waits(c.past) + [c.backoff] + rest == Waits(c.past) + ([c.backoff] + rest);
        waits := [c.backoff] + rest;
        WaitsShift(c.backoff, cfg.maxBackoff, rest);
      } else {
        StoppedOutage(cfg, d, passes[1..]);
      }
    }
  }

  lemma WaitsShift(b: int64, max: int64, rest: seq<int>)
    requires forall k :: 0 <= k < |rest| ==> rest[k] == Backoff(NextBackoff(max, b), max, k)
    ensures forall k :: 0 <= k < |rest| + 1 ==> ([b] + rest)[k] == Backoff(b, max, k)
  {
    forall k | 0 <= k < |rest| + 1 ensures ([b] + rest)[k] == Backoff(b, max, k) {
      if k > 0 { BackoffShift(b, max, k - 1); }
    }
  }

  lemma {:induction false} BackoffShift(b: int64, max: int64, k: nat)
    ensures Backoff(NextBackoff(max, b), max, k) == Backoff(b, max, k + 1)
  {
    if k > 0 { BackoffShift(b, max, k - 1); }
  }

  /** The k-th wait of a stretch is min(2^k * initial, max). */
  ghost predicate WaitsAsDocumented(cfg: Config, c: Call, passes: seq<Pass>) {
    var all := Waits(Outage(cfg, c, passes).past);
    forall k :: 0 <= k < |all| - |Waits(c.past)| ==> all[|Waits(c.past)| + k] == Doubled(cfg.initial, cfg.maxBackoff, k)
  }

  /** From a stored strategy that can fail, in every reachable state: the waits of every
      stretch are min(2^k * initial, max) if and only if the backoff is back at its initial
      value when the stretch begins. */
  lemma WaitsAsDocumentedIff(cfg: Config, c: Call)
    requires Usable(cfg) && Inv(cfg, c) && Peak(cfg.initial) >= cfg.maxBackoff
    requires c.phase.Looking? && c.next <= MIGRATE && c.next != DISCONNECT
    ensures (forall passes :: WaitsAsDocumented(cfg, c, passes)) <==> c.backoff == cfg.initial
  {
    hide Waits, Outage, Inv, Doubled, Backoff, Peak;
    if c.backoff == cfg.initial {
      forall passes ensures WaitsAsDocumented(cfg, c, passes) {
        var waits := StretchWaits(cfg, c, passes);
        forall k | 0 <= k < |waits| ensures waits[k] == Doubled(cfg.initial, cfg.maxBackoff, k) {
          BackoffIsDoubled(cfg.initial, cfg.maxBackoff, k);
        }
        assert forall k :: 0 <= k < |waits| ==> (Waits(c.past) + waits)[|Waits(c.past)| + k] == waits[k];
      }
    } else {
      var p := FailingPass(cfg, c);
      assert Waits(Outage(cfg, c, [p]).past) == Waits(c.past) + [c.backoff];
      assert (Waits(c.past) + [c.backoff])[|Waits(c.past)| + 0] == c.backoff;
      assert Doubled(cfg.initial, cfg.maxBackoff, 0) == cfg.initial by { FirstWait(cfg.initial, cfg.maxBackoff); }
      assert !WaitsAsDocumented(cfg, c, [p]);
    }
  }

  lemma FirstWait(initial: int64, max: int64)
    ensures Doubled(initial, max, 0) == initial
  {
  }

  /** Some pass makes an attempt that fails: no timeout, and the limiter empty. */
  lemma FailingPass(cfg: Config, c: Call) returns (p: Pass)
    requires Usable(cfg) && Inv(cfg, c) && c.phase.Looking? && c.next <= MIGRATE && c.next != DISCONNECT
    ensures Waits(Outage(cfg, c, [p]).past) == Waits(c.past) + [c.backoff]
  {
    hide Waits, Tried, NextBackoff, Deadline, FastPossible, Lawful;
    var start := if c.since == 0 then 1 else c.since;
    p := Pass(1, start, start, 0, true, true, cfg.rejoinWindow, 0);
    SlidingWindow.EvictAll(c.events, c.clock + cfg.rejoinWindow - cfg.rejoinWindow);
    assert Step(cfg, c, FindNone(p)).phase.Attempting?;
    RoundEffect(cfg, c, p);
    assert [p][1..] == [];
    var d := Round(cfg, c, p);
    assert Outage(cfg, d, []) == d;
    assert Outage(cfg, c, [p]) == d;
  }

  /** In every reachable state the backoff is at its initial value if and only if no attempt
      has failed since one last ended well, or the cap is that value. */
  lemma BackoffAtInitialIff(cfg: Config, c: Call)
    requires Usable(cfg) && Inv(cfg, c) && Peak(cfg.initial) >= cfg.maxBackoff
    ensures c.backoff == cfg.initial <==> Sleeps(c.past) == 0 || cfg.initial == cfg.maxBackoff
  {
    hide Inv, Peak, Sleeps, Backoff;
    assert c.backoff == Backoff(cfg.initial, cfg.maxBackoff, Sleeps(c.past)) by { BackoffIsKth(cfg, c); }
    BackoffIsDoubled(cfg.initial, cfg.maxBackoff, Sleeps(c.past));
    if Sleeps(c.past) > 0 { Times2Grows(cfg.initial, Sleeps(c.past)); }
  }

  lemma BackoffIsKth(cfg: Config, c: Call)
    requires Inv(cfg, c)
    ensures c.backoff == Backoff(cfg.initial, cfg.maxBackoff, Sleeps(c.past))
  {
  }

  lemma {:induction false} Times2Grows(x: int, k: nat)
    requires x > 0 && k > 0
    ensures Times2(x, k) > x
  {
    if k > 1 { Times2Grows(x, k - 1); }
  }

  // ---- what is stored ----

  predicate Named(s: Strategy) { DISCONNECT <= s <= MIGRATE }

  lemma NamedStep(cfg: Config, c: Call, a: Action)
    requires Named(c.next) && (a.Told? ==> a.s == UNSPECIFIED || Named(a.s))
    ensures Named(Step(cfg, c, a).next)
  {
    hide NextBackoff, Deadline, SlidingWindow.Admit, FastPossible;
  }

  /** As long as the rest of the program names its strategies the stored one is named: then
      UNSPECIFIED is never stored. A negative value that is told is stored, and failures
      take it through UNSPECIFIED to DISCONNECT (BelowNamedStops). */
  lemma {:induction false} NamedAlways(cfg: Config, next: Strategy, actions: seq<Action>)
    requires Named(next)
    requires forall i :: 0 <= i < |actions| && actions[i].Told? ==> actions[i].s == UNSPECIFIED || Named(actions[i].s)
    ensures Named(Run(cfg, Start(cfg, next), actions).next)
    decreases |actions|
  {
    if actions != [] {
      hide Step, Start, Named;
      NamedAlways(cfg, next, actions[..|actions| - 1]);
      NamedStep(cfg, Run(cfg, Start(cfg, next), actions[..|actions| - 1]), actions[|actions| - 1]);
    }
  }

  // ---- the class ----

  /** The fields of Call that the reconnect loop works on, with the loop's own
      variables. */
  class Monitor {
    const cfg: Config
    const limiter: SlidingWindow.Limiter
    var next: Strategy
    var since: int
    var fast: uint32
    var backoff: int64

    ghost predicate Valid()
      reads this, limiter
    {
      limiter.limit == cfg.rejoinLimit && limiter.window == cfg.rejoinWindow && limiter.Valid()
    }

    /** The mutable part as the machine sees it. */
    ghost predicate Matches(c: Call)
      reads this, limiter
    {
      && next == c.next && since == c.since && fast == c.fast && backoff == c.backoff
      && limiter.events == c.events && limiter.clock == c.clock
    }

    /** Fresh as at the start of monitorHealth. */
    constructor (cfg: Config, next: Strategy)
      ensures Valid() && Matches(Start(cfg, next)) && this.cfg == cfg && fresh(limiter)
    {
      this.cfg, this.next := cfg, next;
      limiter := new SlidingWindow.Limiter(cfg.rejoinLimit, cfg.rejoinWindow);
      since, fast, backoff := 0, 0, cfg.initial;
    }

    method MarkDisconnected(at: int)
      modifies this`since
      ensures since == if old(since) == 0 then at else old(since)
    {
      if since == 0 { since := at; }
    }

    method MarkConnected()
      modifies this`since, this`fast, limiter`events, limiter`grants
      ensures since == 0 && fast == 0 && limiter.events == [] && limiter.Valid()
    {
      since, fast := 0, 0;
      limiter.Reset();
    }

    method CanFastReconnect(p: Pass) returns (ok: bool)
      ensures forall c :: Matches(c) ==> (ok <==> FastPossible(cfg, c, p))
    {
      if fast >= Trunc32(cfg.maxFast) { return false; }
      if since != 0 && p.judged - since > Deadline(cfg, p.secs) { return false; }
      ok := p.publisher && p.subscriber;
    }

    method SelectStrategy(p: Pass, requested: Strategy) returns (s: Strategy)
      ensures forall c :: Matches(c) ==> s == Select(cfg, c, p, requested)
    {
      if requested != FAST { return requested; }
      var ok := CanFastReconnect(p);
      s := if ok then requested else REJOIN;
    }

    /** A pass without a connection, up to the attempt; `c` is the call around it. */
    method FindNone(p: Pass, c: Call) returns (d: Call)
      requires Valid() && Matches(c) && c.phase.Looking?
      modifies this, limiter
      ensures d == NoConnection(cfg, c, p) && Matches(d) && Valid()
    {
      hide Begin, SlidingWindow.Tracks, SlidingWindow.Spaced;
      MarkDisconnected(p.seen);
      d := Tell(c.(since := since), Down(p.seen));
      if cfg.timeout > 0 && p.checked - since > cfg.timeout {
        next := DISCONNECT;
        d := Abandon(d, TooLong(p.checked));
        return;
      }
      if next == DISCONNECT {
        d := d.(phase := Stopped);
        return;
      }
      d := BeginAttempt(p, d);
    }

    /** Choose the strategy, spend its budget and begin the attempt, or give up. */
    method BeginAttempt(p: Pass, c: Call) returns (d: Call)
      requires Valid() && Matches(c)
      modifies this, limiter
      ensures d == Begin(cfg, c, p) && Matches(d) && Valid()
    {
      hide FastPossible, Deadline, SlidingWindow.Admit, SlidingWindow.InWindow, SlidingWindow.Tracks,
           SlidingWindow.Spaced;
      var asked := next;
      if asked < FAST { asked := REJOIN; }
      var s := SelectStrategy(p, asked);
      var now := c.clock + p.waited;
      d := c;
      if ConsumesRejoinBudget(s) {
        var ok := limiter.Allow(now, now + p.gap);
        d := d.(events := limiter.events, clock := if ok then now + p.gap else now);
        if !ok {
          next := DISCONNECT;
          d := Abandon(d, TooMany(now));
          return;
        }
      }
      if s == FAST { fast := Trunc32(fast + 1); }
      var e := Attempt(asked, s, p.judged, Deadline(cfg, p.secs), p.publisher && p.subscriber, now, now + p.gap);
      d := Tell(d.(fast := fast, phase := Attempting(s)), e);
    }

    /** reconnect: `ok` is how the calls of the strategy end, if it makes any. */
    method RunReconnect(s: Strategy, ok: bool) returns (ended: bool)
      ensures ended == Ends(s, ok)
    {
      if s == FAST || s == REJOIN || s == MIGRATE { return ok; }
      ended := true;
    }

    method AttemptEnds(ok: bool, c: Call) returns (d: Call)
      requires Valid() && Matches(c) && c.phase.Attempting?
      modifies this, limiter
      ensures d == (if Ends(c.phase.strategy, ok) then Succeeded(cfg, c) else Failed(cfg, c)) && Matches(d) && Valid()
    {
      var ended := RunReconnect(c.phase.strategy, ok);
      if ended {
        MarkConnected();
        backoff := cfg.initial;
        d := Tell(Call(next, since, fast, backoff, limiter.events, c.clock, Looking, c.past), Up);
      } else {
        d := Tell(c, Slept(backoff));
        backoff := NextBackoff(cfg.maxBackoff, backoff);
        next := Escalate(next);
        d := d.(next := next, backoff := backoff, phase := Looking);
      }
    }

    /** One move of the loop or of the rest of the program. */
    method Play(a: Action, c: Call) returns (d: Call)
      requires Valid() && Matches(c)
      modifies this, limiter
      ensures d == Step(cfg, c, a) && Matches(d) && Valid()
    {
      d := c;
      match a
      case FindNone(p) =>
        if c.phase.Looking? { d := FindNone(p, c); }
      case AttemptEnds(ok) =>
        if c.phase.Attempting? { d := AttemptEnds(ok, c); }
      case FindConnection =>
        if c.phase.Looking? {
          d := Tell(d, Found);
          if next == DISCONNECT {
            d := d.(phase := Stopped);
          } else {
            next := FAST;
            d := d.(next := next, phase := Waiting);
          }
        }
      case Lost(at) =>
        if c.phase.Waiting? {
          MarkDisconnected(at);
          d := Tell(d.(since := since, phase := Looking), Down(at));
        }
      case MigrateAsked =>
        if c.phase.Waiting? {
          next := MIGRATE;
          d := d.(next := next, phase := Looking);
        }
      case Poll =>
        if c.phase.Waiting? { d := d.(phase := Looking); }
      case Told(s) =>
        if s != UNSPECIFIED {
          next := s;
          d := d.(next := s);
        }
    }
  }

  /** monitorHealth over a whole schedule of what it meets. */
  method MonitorHealth(cfg: Config, next: Strategy, actions: seq<Action>) returns (c: Call)
    ensures c == Run(WithDefaults(cfg), Start(WithDefaults(cfg), next), actions)
    ensures Lawful(WithDefaults(cfg), c.past)
  {
    var full := WithDefaults(cfg);
    var m := new Monitor(full, next);
    c := Start(full, next);
    for i := 0 to |actions|
      invariant fresh(m) && fresh(m.limiter) && m.cfg == full && m.Valid() && m.Matches(c)
      invariant c == Run(full, Start(full, next), actions[..i])
    {
      hide Step, Lawful, Inv;
      c := m.Play(actions[i], c);
      assert actions[..i + 1][..i] == actions[..i];
    }
    assert actions[..|actions|] == actions;
    InvAlways(full, next, actions);
  }
}
