/** Whether a failed peer connection is repaired by an ICE restart or given up
    (ice_recovery.go): the critical sections, every interleaving of them, and a class
    that runs them. */
module IceRecovery {
  import opened Wrappers

  // ---- configuration ----

  /** Durations are in nanoseconds. */
  datatype Config = Config(delay: int, maxRestarts: int)

  const DEFAULTS := Config(2_500_000_000, 2)

  predicate Usable(c: Config) { c.delay > 0 && c.maxRestarts > 0 }

  function WithDefaults(c: Config): (d: Config)
    ensures Usable(d)
    ensures c.delay > 0 ==> d.delay == c.delay
    ensures c.maxRestarts > 0 ==> d.maxRestarts == c.maxRestarts
  {
    Config(if c.delay <= 0 then DEFAULTS.delay else c.delay,
           if c.maxRestarts <= 0 then DEFAULTS.maxRestarts else c.maxRestarts)
  }

  // ---- the state under the mutex ----

  datatype Recovery = Recovery(max: int, attempts: int, timer: Option<nat>, closed: bool)

  datatype Verdict = Ignore | Exhausted | Grant

  /** What tryRestart decides. */
  function Judge(r: Recovery): Verdict {
    if r.closed then Ignore else if r.attempts >= r.max then Exhausted else Grant
  }

  // ---- every interleaving ----

  datatype Why = NeverConnected | BudgetSpent | RestartError

  /** What an observer sees happen. */
  datatype Event =
    | Connected                // onConnected ran
    | Trigger                  // something asked for a restart
    | Restart                  // a restart was granted
    | Escalate(why: Why)       // a full reconnect was asked for
    | Refuse                   // the trigger came after close
    | Closed                   // close ran

  /** The controller, the timers that can still fire, and the goroutines between two
      critical sections: timer callbacks not yet inside, calls about to enter
      tryRestart, and restarts that have not returned. */
  datatype World = World(
    r: Recovery, made: nat, armed: set<nat>, fired: nat, trying: nat, restarting: nat, past: seq<Event>)

  datatype Action =
    | OnConnected
    | OnDisconnected
    | OnFailed(hasEverConnected: bool)
    | Fires(timer: nat)
    | CallbackClears
    | TryRestart
    | RestartReturns(ok: bool)
    | Close

  function Start(max: int): World { World(Recovery(max, 0, None, false), 0, {}, 0, 0, 0, []) }

  /** Timer.Stop: too late for a timer that has fired. */
  function StopTimer(w: World): World {
    if w.r.timer.Some? then w.(r := w.r.(timer := None), armed := w.armed - {w.r.timer.value}) else w
  }

  function Tell(w: World, e: Event): World { w.(past := w.past + [e]) }

  function Try(w: World): World {
    match Judge(w.r)
    case Ignore => Tell(w, Refuse)
    case Exhausted => Tell(w, Escalate(BudgetSpent))
    case Grant => Tell(w.(r := w.r.(attempts := w.r.attempts + 1), restarting := w.restarting + 1), Restart)
  }

  /** One critical section, or one move of the outside world. Moves that nobody is
      ready to make do nothing. */
  function Step(w: World, a: Action): World {
    match a
    case OnConnected =>
      var s := StopTimer(w);
      Tell(s.(r := s.r.(attempts := 0)), Connected)
    case OnDisconnected =>
      if w.r.closed || w.r.timer.Some? then w
      else w.(r := w.r.(timer := Some(w.made)), made := w.made + 1, armed := w.armed + {w.made})
    case OnFailed(ever) =>
      var s := StopTimer(w);
      if ever then Tell(s.(trying := s.trying + 1), Trigger) else Tell(s, Escalate(NeverConnected))
    case Fires(t) =>
      if t in w.armed then w.(armed := w.armed - {t}, fired := w.fired + 1) else w
    case CallbackClears =>
      if w.fired > 0 then
        Tell(w.(r := w.r.(timer := None), fired := w.fired - 1, trying := w.trying + 1), Trigger)
      else w
    case TryRestart =>
      if w.trying > 0 then Try(w.(trying := w.trying - 1)) else w
    case RestartReturns(ok) =>
      if w.restarting > 0 then
        var s := w.(restarting := w.restarting - 1);
        if ok then s else Tell(s, Escalate(RestartError))
      else w
    case Close =>
      var s := StopTimer(w);
      Tell(s.(r := s.r.(closed := true)), Closed)
  }

  function Run(w: World, actions: seq<Action>): World
    decreases |actions|
  {
    if actions == [] then w else Step(Run(w, actions[..|actions| - 1]), actions[|actions| - 1])
  }

  // ---- what the history alone says ----

  /** Restarts granted since the connection was last up. */
  function GrantsSince(past: seq<Event>): nat {
    if past == [] then 0
    else
      var init, last := past[..|past| - 1], past[|past| - 1];
      if last == Connected then 0 else if last == Restart then GrantsSince(init) + 1 else GrantsSince(init)
  }

  function Count(past: seq<Event>, e: Event): nat {
    if past == [] then 0
    else Count(past[..|past| - 1], e) + if past[|past| - 1] == e then 1 else 0
  }

  predicate IsOutcome(e: Event) { e == Restart || e == Refuse || e == Escalate(BudgetSpent) }

  /** What a trigger must lead to, given what happened before. */
  function Due(past: seq<Event>, max: int): Event {
    if Closed in past then Refuse
    else if GrantsSince(past) < max then Restart
    else Escalate(BudgetSpent)
  }

  /** A failed restart is one that was granted and had not failed yet. */
  ghost predicate Owing(past: seq<Event>) { Count(past, Escalate(RestartError)) < Count(past, Restart) }

  ghost predicate Lawful(past: seq<Event>, max: int) {
    && (forall i :: 0 <= i < |past| && IsOutcome(past[i]) ==> past[i] == Due(past[..i], max))
    && (forall i :: 0 <= i < |past| && past[i] == Escalate(RestartError) ==> Owing(past[..i]))
  }

  ghost predicate Inv(w: World) {
    && 0 <= w.r.attempts <= w.r.max
    && w.r.attempts == GrantsSince(w.past)
    && (w.r.closed <==> Closed in w.past)
    && Lawful(w.past, w.r.max)
    && Count(w.past, Trigger) ==
       Count(w.past, Restart) + Count(w.past, Escalate(BudgetSpent)) + Count(w.past, Refuse) + w.trying
    && w.restarting + Count(w.past, Escalate(RestartError)) <= Count(w.past, Restart)
    && (w.r.timer.Some? ==> w.r.timer.value < w.made)
    && (forall t :: t in w.armed ==> t < w.made)
  }

  lemma TellCounts(past: seq<Event>, e: Event)
    ensures forall x :: Count(past + [e], x) == Count(past, x) + if x == e then 1 else 0
    ensures GrantsSince(past + [e]) == if e == Connected then 0 else GrantsSince(past) + if e == Restart then 1 else 0
  {
    assert (past + [e])[..|past|] == past;
  }

  lemma TellLawful(past: seq<Event>, e: Event, max: int)
    requires Lawful(past, max) && (IsOutcome(e) ==> e == Due(past, max))
    requires e == Escalate(RestartError) ==> Owing(past)
    ensures Lawful(past + [e], max)
  {
    hide Owing, Due;
    var more := past + [e];
    assert forall i :: 0 <= i < |past| ==> more[..i] == past[..i];
    assert more[..|past|] == past;
  }

  lemma StepKeepsInv(w: World, a: Action)
    requires Inv(w)
    ensures Inv(Step(w, a)) && Step(w, a).r.max == w.r.max
  {
    hide Count, GrantsSince, Lawful;
    var s := Step(w, a);
    if |s.past| > |w.past| {
      var e := s.past[|w.past|];
      TellCounts(w.past, e);
      TellLawful(w.past, e, w.r.max);
    }
  }

  lemma {:induction false} InvAlways(max: int, actions: seq<Action>)
    requires max > 0
    ensures Inv(Run(Start(max), actions)) && Run(Start(max), actions).r.max == max
    decreases |actions|
  {
    if actions != [] {
      hide Step, Inv;
      InvAlways(max, actions[..|actions| - 1]);
      StepKeepsInv(Run(Start(max), actions[..|actions| - 1]), actions[|actions| - 1]);
    }
  }

  /** Over every interleaving: restarts granted since the last onConnected are the
      attempts and stay within the budget; the outcome of every trigger is the one its
      history calls for (a restart while the budget lasts, then an escalation, nothing
      after close); and every trigger has exactly one outcome or is still on its way. */
  lemma Budget(max: int, actions: seq<Action>)
    requires max > 0
    ensures var w := Run(Start(max), actions);
            && w.r.attempts == GrantsSince(w.past) <= max
            && (forall i :: 0 <= i < |w.past| && IsOutcome(w.past[i]) ==> w.past[i] == Due(w.past[..i], max))
            && Count(w.past, Trigger) ==
               Count(w.past, Restart) + Count(w.past, Escalate(BudgetSpent)) + Count(w.past, Refuse) + w.trying
  {
    InvAlways(max, actions);
  }

  /** Nothing is granted once close has run. */
  lemma NothingAfterClose(max: int, actions: seq<Action>, i: nat, j: nat)
    requires max > 0
    requires i < j < |Run(Start(max), actions).past| && Run(Start(max), actions).past[i] == Closed
    ensures Run(Start(max), actions).past[j] !in {Restart, Escalate(BudgetSpent)}
  {
    InvAlways(max, actions);
    var past := Run(Start(max), actions).past;
    assert past[..j][i] == Closed;
  }

  lemma {:induction false} NoneAfterClose(past: seq<Event>, max: int, i: nat, j: nat)
    requires Lawful(past, max) && i < j <= |past| && past[i] == Closed
    ensures Count(past[..j], Restart) == Count(past[..i], Restart)
    decreases j
  {
    hide Lawful;
    assert past[..j][..j - 1] == past[..j - 1];
    if j > i + 1 {
      NoneAfterClose(past, max, i, j - 1);
      assert past[j - 1] != Restart by { OutcomeAfterClose(past, max, i, j - 1); }
    }
  }

  lemma OutcomeAfterClose(past: seq<Event>, max: int, i: nat, j: nat)
    requires Lawful(past, max) && i < j < |past| && past[i] == Closed
    ensures past[j] !in {Restart, Escalate(BudgetSpent)}
  {
    assert past[..j][i] == Closed;
  }

  /** Over every interleaving, whatever escalates after close is a connection that never
      came up, or a restart granted before close that has not failed yet. */
  lemma EscalationsAfterClose(max: int, actions: seq<Action>, i: nat, j: nat)
    requires max > 0
    requires i < j < |Run(Start(max), actions).past| && Run(Start(max), actions).past[i] == Closed
    requires Run(Start(max), actions).past[j].Escalate?
    ensures var past := Run(Start(max), actions).past;
      && (past[j].why == NeverConnected || past[j].why == RestartError)
      && (past[j].why == RestartError ==> Count(past[..j], Escalate(RestartError)) < Count(past[..i], Restart))
  {
    hide Count, Run, GrantsSince;
    InvAlways(max, actions);
    var past := Run(Start(max), actions).past;
    OutcomeAfterClose(past, max, i, j);
    NoneAfterClose(past, max, i, j);
    assert past[j] == Escalate(past[j].why);
    assert past[j].why.NeverConnected? || past[j].why.BudgetSpent? || past[j].why.RestartError?;
    assert past[j] == Escalate(RestartError) ==> Owing(past[..j]);
  }

  /** Both occur: onFailed does not look at closed, and neither does a restart that
      returns. */
  lemma EscalatesAfterClose(max: int)
    requires max > 0
    ensures Run(Start(max), [Close, OnFailed(false)]).past == [Closed, Escalate(NeverConnected)]
    ensures Run(Start(max), [OnFailed(true), TryRestart, Close, RestartReturns(false)]).past
         == [Trigger, Restart, Closed, Escalate(RestartError)]
  {
    assert [Close, OnFailed(false)][..1] == [Close];
    assert Run(Start(max), [Close]) == Step(Start(max), Close);
    var a := [OnFailed(true), TryRestart, Close, RestartReturns(false)];
    assert a[..3][..2] == a[..2] && a[..2][..1] == a[..1] && a[..1][..0] == [];
    var w1 := Step(Start(max), OnFailed(true));
    assert Run(Start(max), a[..1]) == w1;
    assert Run(Start(max), a[..2]) == Step(w1, TryRestart);
    assert Run(Start(max), a[..3]) == Step(Step(w1, TryRestart), Close);
  }

  // ---- what connecting cancels ----

  /** Nothing asks for another restart. */
  predicate Calm(a: Action) { a != OnDisconnected && a != OnFailed(true) }

  ghost predicate AllCalm(actions: seq<Action>) { forall i :: 0 <= i < |actions| ==> Calm(actions[i]) }

  /** Some continuation that asks for no new restart grants one. */
  ghost predicate RestartsAnyway(w: World) {
    exists actions :: AllCalm(actions) && GrantsMore(w, actions)
  }

  ghost predicate GrantsMore(w: World, actions: seq<Action>) {
    Count(Run(w, actions).past, Restart) > Count(w.past, Restart)
  }

  /** No restart is scheduled, on its way or possible. */
  predicate Settled(w: World) { w.r.closed || (w.armed == {} && w.fired == 0 && w.trying == 0) }

  lemma CalmStep(w: World, a: Action)
    requires Settled(w) && Calm(a)
    ensures Settled(Step(w, a)) && Count(Step(w, a).past, Restart) == Count(w.past, Restart)
  {
    hide Count;
    var s := Step(w, a);
    if |s.past| > |w.past| { TellCounts(w.past, s.past[|w.past|]); }
  }

  lemma {:induction false} CalmRun(w: World, actions: seq<Action>)
    requires Settled(w) && AllCalm(actions)
    ensures Settled(Run(w, actions)) && Count(Run(w, actions).past, Restart) == Count(w.past, Restart)
    decreases |actions|
  {
    if actions != [] {
      hide Step, Settled, Count;
      CalmRun(w, actions[..|actions| - 1]);
      CalmStep(Run(w, actions[..|actions| - 1]), actions[|actions| - 1]);
    }
  }

  /** A trigger that is about to enter tryRestart gets one, from a full budget. */
  lemma TryGrants(w: World, before: seq<Action>)
    requires AllCalm(before) && Run(w, before).trying > 0 && !Run(w, before).r.closed
    requires Run(w, before).r.attempts < Run(w, before).r.max
    requires Count(Run(w, before).past, Restart) == Count(w.past, Restart)
    ensures RestartsAnyway(w)
  {
    hide Count;
    var more := before + [TryRestart];
    assert more[..|before|] == before;
    TellCounts(Run(w, before).past, Restart);
    assert AllCalm(more) && GrantsMore(w, more);
  }

  /** What connecting leaves behind is granted in the end, unless there is nothing. */
  lemma LeftoverGrants(w: World)
    requires w.r.attempts == 0 < w.r.max && !Settled(w)
    ensures RestartsAnyway(w)
  {
    if w.trying > 0 {
      TryGrants(w, []);
    } else if w.fired > 0 {
      FiredGrants(w, []);
    } else {
      var t :| t in w.armed;
      assert [Fires(t)][..0] == [];
      assert Run(w, [Fires(t)]) == Step(w, Fires(t));
      FiredGrants(w, [Fires(t)]);
    }
  }

  lemma FiredGrants(w: World, before: seq<Action>)
    requires AllCalm(before) && Run(w, before).fired > 0 && !Run(w, before).r.closed
    requires Run(w, before).r.attempts < Run(w, before).r.max && Run(w, before).past == w.past
    ensures RestartsAnyway(w)
  {
    hide Count;
    var more := before + [CallbackClears];
    assert more[..|before|] == before;
    TellCounts(w.past, Trigger);
    TryGrants(w, more);
  }

  /** Over every interleaving: after onConnected no restart is granted without a new
      disconnection or failure, whatever else happens, if and only if the controller is
      closed or every armed timer was the one in the field, no callback had fired and no
      call was about to enter tryRestart. */
  lemma ConnectedCancelsIff(max: int, actions: seq<Action>)
    requires max > 0
    ensures var w := Run(Start(max), actions);
      !RestartsAnyway(Step(w, OnConnected)) <==>
        w.r.closed || (&& (forall t :: t in w.armed ==> w.r.timer == Some(t)) && w.fired == 0 && w.trying == 0)
  {
    hide Run, RestartsAnyway, Lawful, Count;
    InvAlways(max, actions);
    var w := Run(Start(max), actions);
    var s := Step(w, OnConnected);
    assert s.armed == {} <==> (forall t :: t in w.armed ==> w.r.timer == Some(t)) by { ArmedLeft(w); }
    if Settled(s) {
      NothingLeft(s);
    } else {
      LeftoverGrants(s);
    }
  }

  lemma NothingLeft(w: World)
    requires Settled(w)
    ensures !RestartsAnyway(w)
  {
    hide Count, Run;
    forall actions | AllCalm(actions) ensures !GrantsMore(w, actions) {
      CalmRun(w, actions);
    }
  }

  lemma ArmedLeft(w: World)
    ensures Step(w, OnConnected).armed == {} <==> (forall t :: t in w.armed ==> w.r.timer == Some(t))
  {
    var s := Step(w, OnConnected);
    if s.armed == {} {
      forall t | t in w.armed ensures w.r.timer == Some(t) {
        assert t !in s.armed;
      }
    }
  }

  lemma RunNext(w: World, actions: seq<Action>, i: nat)
    requires i < |actions|
    ensures Run(w, actions[..i + 1]) == Step(Run(w, actions[..i]), actions[i])
  {
    assert actions[..i + 1][..i] == actions[..i];
  }

  lemma RunSix(w: World, a: seq<Action>)
    requires |a| == 6
    ensures Run(w, a) == Step(Step(Step(Step(Step(Step(w, a[0]), a[1]), a[2]), a[3]), a[4]), a[5])
  {
    hide Step;
    assert a[..0] == [] && a[..6] == a;
    forall i | 0 <= i < 6 ensures Run(w, a[..i + 1]) == Step(Run(w, a[..i]), a[i]) {
      RunNext(w, a, i);
    }
    hide Run;
    assert Run(w, a[..2]) == Step(Run(w, a[..1]), a[1]);
    assert Run(w, a[..4]) == Step(Step(Run(w, a[..2]), a[2]), a[3]);
    assert Run(w, a[..0]) == w by { RunNone(w, a); }
  }

  lemma RunNone(w: World, a: seq<Action>)
    ensures Run(w, a[..0]) == w
  {
    assert a[..0] == [];
  }

  /** A late callback forgets a newer timer, which connecting then cannot cancel. */
  lemma LateCallbackLosesTimer(max: int)
    ensures var a := [OnDisconnected, Fires(0), OnConnected, OnDisconnected, CallbackClears, OnConnected];
            var w := Run(Start(max), a);
            w.armed == {1} && w.r.timer == None
  {
    var a := [OnDisconnected, Fires(0), OnConnected, OnDisconnected, CallbackClears, OnConnected];
    RunSix(Start(max), a);
    hide Run;
    var w2 := Step(Step(Start(max), OnDisconnected), Fires(0));
    var w4 := Step(Step(w2, OnConnected), OnDisconnected);
    assert w4.armed == {1};
  }

  /** No trigger is late: nothing comes between a timer's firing, its first critical
      section and tryRestart, or between a failure and tryRestart. */
  ghost predicate Prompt(max: int, actions: seq<Action>) {
    forall i :: 0 <= i < |actions| ==> InTurn(Run(Start(max), actions[..i]), actions[i])
  }

  predicate InTurn(w: World, a: Action) {
    (w.fired > 0 ==> a == CallbackClears) && (w.trying > 0 ==> a == TryRestart)
  }

  /** At most one restart is scheduled, and it is the one the timer field names. */
  ghost predicate TimerKnown(w: World) {
    && w.fired + w.trying <= 1
    && w.armed == (if w.r.timer.Some? && w.fired == 0 then {w.r.timer.value} else {})
    && (w.trying > 0 ==> w.r.timer.None?)
    && (w.fired > 0 ==> w.r.timer.Some?)
  }

  lemma StepKeepsTimer(w: World, a: Action)
    requires TimerKnown(w) && InTurn(w, a)
    ensures TimerKnown(Step(w, a))
  {
    hide Judge;
  }

  lemma PromptInit(max: int, actions: seq<Action>)
    requires Prompt(max, actions) && actions != []
    ensures var n := |actions| - 1;
            Prompt(max, actions[..n]) && InTurn(Run(Start(max), actions[..n]), actions[n])
  {
    hide Run, InTurn;
    var n := |actions| - 1;
    assert forall i :: 0 <= i < n ==> actions[..n][..i] == actions[..i];
  }

  lemma {:induction false} PromptKeepsTimer(max: int, actions: seq<Action>)
    requires Prompt(max, actions)
    ensures TimerKnown(Run(Start(max), actions))
    decreases |actions|
  {
    if actions != [] {
      hide TimerKnown, Step, InTurn, Prompt, Start;
      var n := |actions| - 1;
      PromptInit(max, actions);
      PromptKeepsTimer(max, actions[..n]);
      StepKeepsTimer(Run(Start(max), actions[..n]), actions[n]);
    }
  }

  /** Without late triggers onConnected cancels every restart that was scheduled: over
      every such run, none is granted after it without a new disconnection or failure. */
  lemma PromptCancels(max: int, actions: seq<Action>)
    requires max > 0 && Prompt(max, actions + [OnConnected])
    ensures !RestartsAnyway(Step(Run(Start(max), actions), OnConnected))
  {
    hide RestartsAnyway;
    var all := actions + [OnConnected];
    assert all[..|actions|] == actions;
    assert forall i :: 0 <= i < |actions| ==> all[..i] == actions[..i];
    assert InTurn(Run(Start(max), all[..|actions|]), all[|actions|]);
    PromptKeepsTimer(max, actions);
    ConnectedCancelsIff(max, actions);
  }

  /** And close leaves nothing scheduled. */
  lemma PromptCloses(max: int, actions: seq<Action>)
    requires Prompt(max, actions + [Close])
    ensures var w := Step(Run(Start(max), actions), Close); w.armed == {} && w.fired == 0 && w.trying == 0
  {
    hide Run;
    var all := actions + [Close];
    assert all[..|actions|] == actions;
    assert forall i :: 0 <= i < |actions| ==> all[..i] == actions[..i];
    assert InTurn(Run(Start(max), all[..|actions|]), all[|actions|]);
    PromptKeepsTimer(max, actions);
  }

  // ---- the class ----

  /** iceRecovery, one method per critical section. */
  class Controller {
    const max: int
    var timer: Option<nat>
    var attempts: int
    var closed: bool

    constructor (cfg: Config)
      ensures Model() == Recovery(WithDefaults(cfg).maxRestarts, 0, None, false)
    {
      max := WithDefaults(cfg).maxRestarts;
      timer, attempts, closed := None, 0, false;
    }

    function Model(): Recovery
      reads this
    {
      Recovery(max, attempts, timer, closed)
    }

    /** The timer to stop, if one is set. */
    method StopTimer() returns (stopped: Option<nat>)
      modifies this`timer
      ensures stopped == old(timer) && timer == None
    {
      stopped := timer;
      if timer.Some? { timer := None; }
    }

    method OnConnected() returns (stopped: Option<nat>)
      modifies this
      ensures stopped == old(timer) && Model() == old(Model()).(timer := None, attempts := 0)
    {
      stopped := StopTimer();
      attempts := 0;
    }

    method OnDisconnected(id: nat) returns (armed: bool)
      modifies this`timer
      ensures armed == (!closed && old(timer).None?)
      ensures Model() == if armed then old(Model()).(timer := Some(id)) else old(Model())
    {
      if closed || timer.Some? { return false; }
      timer := Some(id);
      armed := true;
    }

    method CallbackClears()
      modifies this`timer
      ensures Model() == old(Model()).(timer := None)
    {
      timer := None;
    }

    method TryRestart() returns (v: Verdict)
      modifies this`attempts
      ensures v == Judge(old(Model()))
      ensures Model() == old(Model()).(attempts := old(attempts) + if v == Grant then 1 else 0)
    {
      if closed { return Ignore; }
      if attempts >= max { return Exhausted; }
      attempts := attempts + 1;
      v := Grant;
    }

    method Close() returns (stopped: Option<nat>)
      modifies this
      ensures stopped == old(timer) && Model() == old(Model()).(timer := None, closed := true)
    {
      closed := true;
      stopped := StopTimer();
    }
  }

  function Without(armed: set<nat>, stopped: Option<nat>): set<nat> {
    if stopped.Some? then armed - {stopped.value} else armed
  }

  /** One move of a schedule on a controller; `w` is the world around it. */
  method Play(c: Controller, w: World, a: Action) returns (s: World)
    requires c.Model() == w.r
    modifies c
    ensures s == Step(w, a) && c.Model() == s.r
  {
    s := w;
    match a {
    case OnConnected =>
      var t := c.OnConnected();
      s := Tell(s.(armed := Without(s.armed, t)), Connected);
    case OnDisconnected =>
      var armed := c.OnDisconnected(w.made);
      if armed { s := s.(made := s.made + 1, armed := s.armed + {s.made}); }
    case OnFailed(ever) =>
      var t := c.StopTimer();
      s := s.(armed := Without(s.armed, t));
      if ever { s := Tell(s.(trying := s.trying + 1), Trigger); } else { s := Tell(s, Escalate(NeverConnected)); }
    case Fires(t) =>
      if t in s.armed { s := s.(armed := s.armed - {t}, fired := s.fired + 1); }
    case CallbackClears =>
      if s.fired > 0 {
        c.CallbackClears();
        s := Tell(s.(fired := s.fired - 1, trying := s.trying + 1), Trigger);
      }
    case TryRestart =>
      if s.trying > 0 {
        s := s.(trying := s.trying - 1);
        var v := c.TryRestart();
        match v
        case Ignore => s := Tell(s, Refuse);
        case Exhausted => s := Tell(s, Escalate(BudgetSpent));
        case Grant => s := Tell(s.(restarting := s.restarting + 1), Restart);
      }
    case RestartReturns(ok) =>
      if s.restarting > 0 {
        s := s.(restarting := s.restarting - 1);
        if !ok { s := Tell(s, Escalate(RestartError)); }
      }
    case Close =>
      var t := c.Close();
      s := Tell(s.(armed := Without(s.armed, t)), Closed);
    }
    s := s.(r := c.Model());
  }

  /** A whole schedule on a new controller. */
  method RunSchedule(cfg: Config, actions: seq<Action>) returns (w: World)
    ensures w == Run(Start(WithDefaults(cfg).maxRestarts), actions)
    ensures w.r.attempts <= WithDefaults(cfg).maxRestarts
  {
    var c := new Controller(cfg);
    w := Start(WithDefaults(cfg).maxRestarts);
    for i := 0 to |actions|
      invariant fresh(c) && c.Model() == w.r
      invariant w == Run(Start(WithDefaults(cfg).maxRestarts), actions[..i])
    {
      hide Step;
      w := Play(c, w, actions[i]);
      assert actions[..i + 1][..i] == actions[..i];
    }
    assert actions[..|actions|] == actions;
    InvAlways(WithDefaults(cfg).maxRestarts, actions);
  }
}
