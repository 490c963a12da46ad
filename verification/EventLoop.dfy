/** The two goroutines of a transport (pc/pc.go): the event loop over its queue and
    the sender of local candidates, with the producers that feed them. Every action
    below is atomic in the source: one critical section, one channel operation, or
    code that touches nothing shared. */
module EventLoop {

  /** A queued event: a gathered local candidate, or anything else. */
  datatype Item = Job(n: nat) | Local(c: nat)

  datatype LoopAt =
    | LoopWaiting            // in run's select
    | LoopLooking            // about to call next
    | LoopRunning(item: Item)
    | LoopSignalling         // queueCandidate: appended, about to send on candidateWake

  datatype SenderAt =
    | SenderWaiting          // in sendCandidates' select
    | SenderChecking         // about to call isClosed
    | SenderTaking           // about to lock candidateMu
    | SenderSending(c: nat)  // in OnICECandidateSender

  datatype State = State(
    closed: bool,
    queue: seq<Item>, wake: bool, loop: LoopAt,
    candidates: seq<nat>, candidateWake: bool, sender: SenderAt,
    // history: events accepted, events started, candidates sent
    accepted: seq<Item>, started: seq<Item>, sent: seq<nat>)

  const START := State(false, [], false, LoopWaiting, [], false, SenderWaiting, [], [], [])

  datatype Action =
    | Enqueue(item: Item)    // any producer, the loop's own handlers included
    | Close
    | LoopWake | LoopNext | LoopFinish | LoopSignal
    | SenderWake | SenderCheck | SenderTake
    | SenderDone(ok: bool, report: nat)

  predicate Enabled(s: State, a: Action) {
    match a
    case Enqueue(_) => true
    case Close => true
    case LoopWake => s.loop.LoopWaiting? && s.wake
    case LoopNext => s.loop.LoopLooking?
    case LoopFinish => s.loop.LoopRunning?
    case LoopSignal => s.loop.LoopSignalling?
    case SenderWake => s.sender.SenderWaiting? && s.candidateWake
    case SenderCheck => s.sender.SenderChecking?
    case SenderTake => s.sender.SenderTaking?
    case SenderDone(_, _) => s.sender.SenderSending?
  }

  /** enqueueLocked: nothing once closed, else append and leave a token. */
  function Accept(s: State, item: Item): State {
    if s.closed then s
    else s.(queue := s.queue + [item], accepted := s.accepted + [item], wake := true)
  }

  function Step(s: State, a: Action): State
    requires Enabled(s, a)
  {
    match a
    case Enqueue(item) => Accept(s, item)
    case Close => s.(closed := true, queue := [])
    case LoopWake => s.(wake := false, loop := LoopLooking)
    case LoopNext =>
      if s.closed || s.queue == [] then s.(loop := LoopWaiting)
      else s.(queue := s.queue[1..], loop := LoopRunning(s.queue[0]), started := s.started + [s.queue[0]])
    case LoopFinish =>
      (match s.loop.item
       case Job(_) => s.(loop := LoopLooking)
       case Local(c) => s.(candidates := s.candidates + [c], loop := LoopSignalling))
    case LoopSignal => s.(candidateWake := true, loop := LoopLooking)
    case SenderWake => s.(candidateWake := false, sender := SenderChecking)
    case SenderCheck => s.(sender := if s.closed then SenderWaiting else SenderTaking)
    case SenderTake =>
      if s.candidates == [] then s.(sender := SenderWaiting)
      else s.(candidates := s.candidates[1..], sender := SenderSending(s.candidates[0]))
    case SenderDone(ok, report) =>
      var s1 := s.(sent := s.sent + [s.sender.c], sender := SenderChecking);
      if ok then s1 else Accept(s1, Job(report))
  }

  ghost predicate Possible(s: State, acts: seq<Action>)
    decreases |acts|
  {
    acts == [] || (Enabled(s, acts[0]) && Possible(Step(s, acts[0]), acts[1..]))
  }

  function Run(s: State, acts: seq<Action>): State
    requires Possible(s, acts)
    decreases |acts|
  {
    if acts == [] then s else Run(Step(s, acts[0]), acts[1..])
  }

  // ---- what every interleaving keeps ----

  /** The candidates among some events, in order. */
  function Locals(items: seq<Item>): seq<nat> {
    if items == [] then []
    else Locals(items[..|items| - 1]) + (match items[|items| - 1] case Local(c) => [c] case Job(_) => [])
  }

  function InLoop(s: State): seq<nat> {
    match s.loop
    case LoopRunning(Local(c)) => [c]
    case _ => []
  }

  function InSender(s: State): seq<nat> {
    match s.sender
    case SenderSending(c) => [c]
    case _ => []
  }

  /** A waiting goroutine with work to do has a token, or its producer is about to
      send one. */
  predicate Wakeable(s: State) {
    && (!s.closed && s.loop.LoopWaiting? && s.queue != [] ==> s.wake)
    && (!s.closed && s.sender.SenderWaiting? && s.candidates != [] ==> s.candidateWake || s.loop.LoopSignalling?)
  }

  /** Events start in the order they were accepted, each once; until Close none is
      lost, and after it what started is still a prefix. */
  predicate Fifo(s: State) {
    if s.closed then s.started <= s.accepted && s.queue == [] else s.started + s.queue == s.accepted
  }

  /** Candidates that have left the queue, wherever they are now. */
  function Out(s: State): seq<nat> { s.sent + InSender(s) + s.candidates + InLoop(s) }

  /** The candidates of started events are, in order: sent, being sent, waiting for
      the sender, in the loop's hands. */
  predicate CandidatesInOrder(s: State) { Out(s) == Locals(s.started) }

  predicate Inv(s: State) { Wakeable(s) && Fifo(s) && CandidatesInOrder(s) }

  lemma LocalsAppend(items: seq<Item>, x: Item)
    ensures Locals(items + [x]) == Locals(items) + Locals([x])
    ensures Locals([x]) == match x case Local(c) => [c] case Job(_) => []
  {
    assert (items + [x])[..|items|] == items && [x][..0] == [];
  }

  lemma WakeableKept(s: State, a: Action)
    requires Wakeable(s) && Fifo(s) && Enabled(s, a)
    ensures Wakeable(Step(s, a))
  {
  }

  lemma FifoKept(s: State, a: Action)
    requires Fifo(s) && Enabled(s, a)
    ensures Fifo(Step(s, a))
  {
    if a.LoopNext? && !s.closed && s.queue != [] {
      assert s.started + s.queue == (s.started + [s.queue[0]]) + s.queue[1..];
    } else if a.Close? && !s.closed {
      assert s.started <= s.started + s.queue;
    }
  }

  /** Moving one candidate along the line sent, sender, queue, loop. */
  lemma MoveOn(a: seq<nat>, b: seq<nat>, c: seq<nat>, d: seq<nat>, x: nat)
    ensures (a + [x]) + [] + c + d == a + [x] + c + d
    ensures a + [x] + c + d == a + [] + ([x] + c) + d
    ensures a + b + (c + [x]) + [] == a + b + c + [x]
    ensures a + b + c + [] + d == a + b + c + d
  {
  }

  lemma OrderKept(s: State, a: Action)
    requires CandidatesInOrder(s) && Enabled(s, a)
    ensures CandidatesInOrder(Step(s, a))
  {
    hide Locals;
    match a
    case LoopNext =>
      if !s.closed && s.queue != [] {
        LocalsAppend(s.started, s.queue[0]);
        MoveOn(s.sent, InSender(s), s.candidates, Locals([s.queue[0]]), 0);
      }
    case LoopFinish =>
      if s.loop.item.Local? { MoveOn(s.sent, InSender(s), s.candidates, [], s.loop.item.c); }
    case SenderTake =>
      if s.candidates != [] {
        assert s.candidates == [s.candidates[0]] + s.candidates[1..];
        MoveOn(s.sent, [], s.candidates[1..], InLoop(s), s.candidates[0]);
      }
    case SenderDone(_, _) => MoveOn(s.sent, [], s.candidates, InLoop(s), s.sender.c);
    case _ =>
  }

  lemma StepKeeps(s: State, a: Action)
    requires Inv(s) && Enabled(s, a)
    ensures Inv(Step(s, a))
  {
    hide Wakeable, Fifo, CandidatesInOrder, Step;
    WakeableKept(s, a);
    FifoKept(s, a);
    OrderKept(s, a);
  }

  /** Over every interleaving of producers, loop and sender. */
  lemma {:induction false} InvAlways(s: State, acts: seq<Action>)
    requires Inv(s) && Possible(s, acts)
    ensures Inv(Run(s, acts))
    decreases |acts|
  {
    if acts != [] {
      StepKeeps(s, acts[0]);
      InvAlways(Step(s, acts[0]), acts[1..]);
    }
  }

  /** In every reachable state: nothing reordered, repeated or invented. */
  lemma OrderAlways(acts: seq<Action>)
    requires Possible(START, acts)
    ensures var s := Run(START, acts); s.started <= s.accepted && s.sent <= Locals(s.started)
  {
    InvAlways(START, acts);
    var s := Run(START, acts);
    assert Out(s) == s.sent + (InSender(s) + s.candidates + InLoop(s));
  }

  // ---- and nothing is stranded ----

  /** An action of the loop or the sender: no producer, no Close, no failed send. */
  predicate Internal(a: Action) {
    match a
    case Enqueue(_) => false
    case Close => false
    case SenderDone(ok, _) => ok
    case _ => true
  }

  ghost predicate AllInternal(acts: seq<Action>) { forall i :: 0 <= i < |acts| ==> Internal(acts[i]) }

  /** Work left: enough to order any schedule of internal actions. */
  function LoopWork(s: State): nat {
    4 * |s.queue|
    + (match s.loop
       case LoopWaiting => 0 case LoopLooking => 1 case LoopSignalling => 2 case LoopRunning(_) => 3)
    + (if s.wake then 2 else 0)
  }

  function SenderWork(s: State): nat {
    4 * |s.candidates|
    + (match s.sender
       case SenderWaiting => 0 case SenderTaking => 1 case SenderChecking => 2 case SenderSending(_) => 3)
    + (if s.candidateWake then 3 else 0)
  }

  /** The internal action that is due, if any work is left. */
  function Due(s: State): Action
    requires Inv(s) && !s.closed && Work(s) > 0
    ensures Enabled(s, Due(s)) && Internal(Due(s))
  {
    match s.loop
    case LoopRunning(_) => LoopFinish
    case LoopSignalling => LoopSignal
    case LoopLooking => LoopNext
    case LoopWaiting =>
      if s.wake then LoopWake
      else
        match s.sender
        case SenderSending(_) => SenderDone(true, 0)
        case SenderTaking => SenderTake
        case SenderChecking => SenderCheck
        case SenderWaiting => SenderWake
  }

  /** A single measure: a move of the loop may hand the sender one candidate or one token. */
  function Work(s: State): nat { 5 * LoopWork(s) + SenderWork(s) }

  /** Every internal action that can happen is progress. */
  lemma InternalProgress(s: State, a: Action)
    requires !s.closed && Enabled(s, a) && Internal(a)
    ensures var s' := Step(s, a); !s'.closed && s'.accepted == s.accepted && Work(s') < Work(s)
  {
  }

  /** With no work left everything accepted has run and every candidate has gone out. */
  lemma IdleMeansDone(s: State)
    requires Inv(s) && !s.closed && Work(s) == 0
    ensures s.started == s.accepted && s.sent == Locals(s.accepted)
  {
    assert s.started + [] == s.started;
    assert Out(s) == s.sent;
  }

  /** Neither goroutine can move on its own. */
  ghost predicate Quiet(s: State) { forall a :: Enabled(s, a) ==> !Internal(a) }

  lemma QuietMeansIdle(s: State)
    requires Inv(s) && !s.closed
    ensures Work(s) > 0 ==> !Quiet(s)
  {
    if Work(s) > 0 {
      var a := Due(s);
      assert Enabled(s, a) && Internal(a);
    }
  }

  /** Whatever order the two goroutines move in, they stop after boundedly many moves,
      and where neither can move any further every accepted event has run and every
      gathered candidate has gone out, in order. No wake-up is ever lost. */
  lemma {:induction false} Quiesces(s: State, acts: seq<Action>)
    requires Inv(s) && !s.closed && Possible(s, acts) && AllInternal(acts)
    ensures Run(s, acts).accepted == s.accepted && |acts| + Work(Run(s, acts)) <= Work(s)
    ensures Quiet(Run(s, acts)) ==> Run(s, acts).started == s.accepted && Run(s, acts).sent == Locals(s.accepted)
    decreases |acts|
  {
    if acts == [] {
      if Quiet(s) {
        QuietMeansIdle(s);
        IdleMeansDone(s);
      }
    } else {
      InternalProgress(s, acts[0]);
      StepKeeps(s, acts[0]);
      assert AllInternal(acts[1..]);
      Quiesces(Step(s, acts[0]), acts[1..]);
    }
  }

  /** So whatever is enqueued before Close runs, as the next event in line. */
  lemma EnqueuedRuns(s: State, item: Item, acts: seq<Action>)
    requires Inv(s) && !s.closed && AllInternal(acts) && Possible(Step(s, Enqueue(item)), acts)
    ensures var end := Run(Step(s, Enqueue(item)), acts); Quiet(end) ==> end.started == s.accepted + [item]
  {
    hide Quiet, Inv;
    StepKeeps(s, Enqueue(item));
    Quiesces(Step(s, Enqueue(item)), acts);
  }

  /** And a candidate that could not be sent is reported by an event, which runs. */
  lemma FailureRuns(s: State, report: nat, acts: seq<Action>)
    requires Inv(s) && !s.closed && s.sender.SenderSending? && AllInternal(acts)
    requires Possible(Step(s, SenderDone(false, report)), acts)
    ensures var end := Run(Step(s, SenderDone(false, report)), acts);
      Quiet(end) ==> end.started == s.accepted + [Job(report)]
  {
    hide Quiet, Inv;
    StepKeeps(s, SenderDone(false, report));
    Quiesces(Step(s, SenderDone(false, report)), acts);
  }

  /** After Close no event starts, and no candidate goes out but the one the sender has
      in hand or is about to take. */
  lemma {:induction false} CloseStops(s: State, acts: seq<Action>)
    requires Inv(s) && s.closed && Possible(s, acts)
    ensures var end := Run(s, acts);
      && end.closed && end.started == s.started && end.accepted == s.accepted
      && |end.sent| <= |s.sent| + (if s.sender.SenderTaking? || s.sender.SenderSending? then 1 else 0)
    decreases |acts|
  {
    if acts != [] {
      StepKeeps(s, acts[0]);
      CloseStops(Step(s, acts[0]), acts[1..]);
    }
  }
}
