/** What every run of the negotiation state machine keeps. */
module TransportLaws {
  import opened Bits
  import Arith
  import opened NegotiationId
  import opened Wrappers
  import opened TransportSpec

  // ---- the offerer: signalling, restarts, timers ----

  /** An event of a transport that offers and is never offered to. */
  predicate OffererEvent(e: Event) { !e.a.RemoteOffer? }

  ghost predicate OffererRun(events: seq<Event>) {
    Possible(INIT, events) && forall i :: 0 <= i < |events| ==> OffererEvent(events[i])
  }

  /** Negotiation is idle exactly when signalling is stable, and every offer was
      created while it was. */
  ghost predicate SignallingInv(t: Transport) {
    && (t.negotiation == Idle <==> t.sig == Stable) && t.sig != HaveRemoteOffer
    && (t.negotiation != Idle ==> t.hasLocal)
    && t.ans.deferred == None
    && forall i :: 0 <= i < |t.h.created| ==> t.h.created[i].sig == Stable
  }

  /** A restart held for the next offer has an offer to follow and finds gathering
      complete; a restart held for gathering has a completion to come; no restart
      offer was created while gathering. */
  ghost predicate RestartInv(t: Transport) {
    && (t.restartAtNextOffer ==> t.negotiation == RenegotiatePending && t.gathering == Complete)
    && (t.restartAfterGathering ==> t.gathering == InProgress || t.completions > 0)
    && (t.completions > 0 || t.restartAfterGathering ==> t.gathering != NotStarted)
    && forall i :: 0 <= i < |t.h.created| && t.h.created[i].restart ==> t.h.created[i].gathering == Complete
  }

  /** A timeout that is not stale belongs to an outstanding offer. */
  ghost predicate TimerInv(t: Transport) {
    && (forall g :: g in t.h.armed ==> g <= t.gen)
    && (t.gen in t.h.armed ==> t.negotiation != Idle)
    && (t.timer.Some? ==> t.timer.value == t.gen && t.gen in t.h.armed)
  }

  ghost predicate OffererInv(t: Transport) { SignallingInv(t) && RestartInv(t) && TimerInv(t) }

  lemma OfferSignals(t: Transport, iceRestart: bool, env: Env)
    requires SignallingInv(t)
    ensures SignallingInv(Offer(t, iceRestart, env).t)
  {
    hide SignallingInv, NoteCreated, LocalSet, Launch;
    var restart := iceRestart || t.restartAtNextOffer;
    if t.negotiation == Idle {
      NoteSignals(t, restart);
      LaunchSignals(NoteCreated(t, restart), restart, env);
    } else {
      StaysSignalled(t);
    }
  }

  lemma NoteSignals(t: Transport, restart: bool)
    requires SignallingInv(t) && t.negotiation == Idle
    ensures SignallingInv(NoteCreated(t, restart)) && NoteCreated(t, restart).negotiation == Idle
  {
  }

  lemma LaunchSignals(t: Transport, restart: bool, env: Env)
    requires SignallingInv(t) && t.negotiation == Idle
    ensures SignallingInv(Launch(LocalSet(t, HaveLocalOffer, env), restart))
  {
    hide Next;
  }

  lemma StaysSignalled(t: Transport)
    requires SignallingInv(t) && t.negotiation != Idle
    ensures SignallingInv(t.(negotiation := RenegotiatePending))
  {
  }

  lemma OfferRestarts(t: Transport, iceRestart: bool, env: Env)
    requires SignallingInv(t) && RestartInv(t.(restartAtNextOffer := false))
    requires iceRestart || t.restartAtNextOffer ==> t.gathering == Complete
    requires t.negotiation == Idle || RestartInv(t)
    ensures RestartInv(Offer(t, iceRestart, env).t)
  {
    hide Next;
    if t.negotiation == Idle {
      var made := Created(iceRestart || t.restartAtNextOffer, t.sig, t.gathering);
      assert Offer(t, iceRestart, env).t.h.created == t.h.created + [made];
    }
  }

  lemma OfferTimes(t: Transport, iceRestart: bool, env: Env)
    requires TimerInv(t)
    ensures TimerInv(Offer(t, iceRestart, env).t)
  {
    hide Launch, TimerInv;
    if t.negotiation == Idle {
      var restart := iceRestart || t.restartAtNextOffer;
      var t1 := NoteCreated(t, restart);
      SameTimer(t, t1);
      SameTimer(t, LocalSet(t1, HaveLocalOffer, env));
      LaunchTimes(LocalSet(t1, HaveLocalOffer, env), restart);
    } else {
      StaysOutstanding(t);
    }
  }

  lemma SameTimer(t: Transport, s: Transport)
    requires TimerInv(t) && s.gen == t.gen && s.timer == t.timer && s.h.armed == t.h.armed
    requires s.negotiation == t.negotiation
    ensures TimerInv(s)
  {
  }

  lemma StaysOutstanding(t: Transport)
    requires TimerInv(t)
    ensures TimerInv(t.(negotiation := RenegotiatePending))
  {
  }

  lemma LaunchTimes(t: Transport, restart: bool)
    requires TimerInv(t)
    ensures TimerInv(Launch(t, restart))
  {
    hide Next;
  }

  lemma OfferKeeps(t: Transport, iceRestart: bool, env: Env)
    requires OffererInv(t.(restartAtNextOffer := false))
    requires iceRestart || t.restartAtNextOffer ==> t.gathering == Complete
    requires t.negotiation == Idle || OffererInv(t)
    ensures OffererInv(Offer(t, iceRestart, env).t)
  {
    hide Offer;
    OfferSignals(t, iceRestart, env);
    OfferRestarts(t, iceRestart, env);
    OfferTimes(t, iceRestart, env);
  }

  lemma AnswerKeeps(t: Transport, answer: Description, id: uint32, env: Env)
    requires OffererInv(t)
    ensures OffererInv(AcceptAnswer(t, answer, id, env).t)
  {
    hide Offer;
    if Classify(id, t.remoteId, t.localId) == Accept {
      var t1 := StopTimeout(t);
      if t1.sig == Stable {
        OfferKeeps(t1.(negotiation := Idle, offerRestartsICE := false), false, env);
      } else if RemoteAccepted(t1, false, env) {
        OfferKeeps(Answered(t1, answer, id).(negotiation := Idle, offerRestartsICE := false), false, env);
      }
    }
  }

  lemma RestartKeeps(t: Transport, env: Env)
    requires OffererInv(t)
    ensures OffererInv(RestartICE(t, env).t)
    ensures RestartICE(t, env).err != Some(NoLocalDescription)
  {
    hide Offer;
    if t.gathering == Complete && t.negotiation == Idle {
      OfferKeeps(t, true, env);
      OfferErrors(t, true, env);
    }
  }

  lemma OfferErrors(t: Transport, iceRestart: bool, env: Env)
    ensures Offer(t, iceRestart, env).err in {None, Some(CreateOfferFailed), Some(SetLocalFailed), Some(SendFailed)}
  {
  }

  lemma NegotiateKeeps(t: Transport, env: Env)
    requires OffererInv(t)
    ensures OffererInv(Offer(t, false, env).t)
  {
    hide Offer;
    OfferKeeps(t, false, env);
  }

  lemma GatheringKeeps(t: Transport, env: Env)
    requires OffererInv(t) && t.completions > 0
    ensures OffererInv(GatheringComplete(t.(completions := t.completions - 1), env).t)
  {
    hide RestartICE, AcceptOffer;
    if t.restartAfterGathering {
      RestartKeeps(t.(completions := t.completions - 1, restartAfterGathering := false), env);
    }
  }

  lemma OthersKeep(t: Transport, c: Candidate, gen: nat, env: Env)
    requires OffererInv(t)
    ensures OffererInv(t.(cands := Trickle(t.cands, c))) && OffererInv(Timeout(t, gen, env).t)
    ensures t.gathering == InProgress ==> OffererInv(t.(gathering := Complete, completions := t.completions + 1))
  {
    hide Matches;
  }

  lemma OffererStep(t: Transport, e: Event)
    requires OffererInv(t) && OffererEvent(e) && Enabled(t, e.a)
    ensures OffererInv(Step(t, e.a, e.env).t)
  {
    hide Offer, AcceptAnswer, RestartICE, AcceptOffer, GatheringComplete, Trickle, Timeout, OffererInv;
    match e.a
    case Negotiate => NegotiateKeeps(t, e.env);
    case RequestRestart => RestartKeeps(t, e.env);
    case RunGatheringComplete => GatheringKeeps(t, e.env);
    case RemoteAnswer(answer, id) => AnswerKeeps(t, answer, id, e.env);
    case FinishGathering => OthersKeep(t, Candidate(0, None), 0, e.env);
    case RemoteCandidate(c) => OthersKeep(t, c, 0, e.env);
    case FireTimeout(gen) => OthersKeep(t, Candidate(0, None), gen, e.env);
  }

  /** In every run of an offerer, with CreateOffer, SetLocalDescription,
      SetRemoteDescription and OnOffer failing anywhere. */
  lemma {:induction false} OffererAlways(events: seq<Event>)
    requires OffererRun(events)
    ensures OffererInv(Run(INIT, events))
    decreases |events|
  {
    if events != [] {
      hide Step, OffererInv;
      OffererAlways(events[..|events| - 1]);
      OffererStep(Run(INIT, events[..|events| - 1]), events[|events| - 1]);
    }
  }

  // ---- the offerer: ids ----

  /** Every answer of the run carries some id. */
  ghost predicate AnswersCarryIds(events: seq<Event>) {
    forall i :: 0 <= i < |events| && events[i].a.RemoteAnswer? ==> events[i].a.id != NO_ID
  }

  /** Offers are numbered 1, 2, ... on the ring; the answers applied are those of
      the offers in order, each once, up to the outstanding one. */
  ghost predicate IdInv(t: Transport) {
    && (forall i :: 0 <= i < |t.h.sent| ==> t.h.sent[i].id == Nth(i + 1))
    && (forall i :: 0 <= i < |t.h.applied| ==> t.h.applied[i] == Nth(i + 1))
    && |t.h.sent| == |t.h.applied| + (if t.negotiation == Idle then 0 else 1)
    && t.localId == Nth(|t.h.sent|) && t.remoteId == Nth(|t.h.applied|)
  }

  lemma NthDiffers(k: nat)
    ensures Nth(k + 1) != Nth(k)
  {
    NthStep(k);
  }

  /** local equals remote exactly when idle, and is its successor otherwise. */
  lemma IdRing(t: Transport)
    requires IdInv(t)
    ensures t.negotiation == Idle <==> t.localId == t.remoteId
    ensures t.negotiation != Idle ==> t.localId == Next(t.remoteId)
  {
    NthStep(|t.h.applied|);
    NthDiffers(|t.h.applied|);
  }

  lemma OfferIds(t: Transport, iceRestart: bool, env: Env)
    requires IdInv(t)
    ensures IdInv(Offer(t, iceRestart, env).t)
  {
    hide Nth, Next;
    NthStep(|t.h.sent|);
    var t' := Offer(t, iceRestart, env).t;
    if t.negotiation == Idle && OfferCallsSucceed(env) {
      assert t'.h.sent == t.h.sent + [Sent(Nth(|t.h.sent| + 1), t'.offerRestartsICE)];
    }
  }

  /** With ids, an answer is accepted exactly when it answers the outstanding
      offer, and it then finds signalling unstable: the "was stable" branch and
      every other id are dead. */
  lemma AcceptedIff(t: Transport, id: uint32)
    requires SignallingInv(t) && IdInv(t) && id != NO_ID
    ensures Classify(id, t.remoteId, t.localId) == Accept <==> t.negotiation != Idle && id == t.localId
    ensures Classify(id, t.remoteId, t.localId) == Accept ==> t.sig == HaveLocalOffer
  {
    IdRing(t);
    AcceptsOnlyOutstanding(id, t.remoteId, t.localId);
  }

  lemma AnswerIds(t: Transport, answer: Description, id: uint32, env: Env)
    requires SignallingInv(t) && IdInv(t) && id != NO_ID
    ensures IdInv(AcceptAnswer(t, answer, id, env).t)
  {
    hide Offer, Nth, Classify, Next;
    AcceptedIff(t, id);
    if Classify(id, t.remoteId, t.localId) == Accept {
      var t1 := StopTimeout(t);
      if RemoteAccepted(t1, false, env) {
        var t3 := Answered(t1, answer, id).(negotiation := Idle, offerRestartsICE := false);
        assert IdInv(t3);
        OfferIds(t3, false, env);
      }
    }
  }

  lemma RestartIds(t: Transport, env: Env)
    requires IdInv(t)
    ensures IdInv(RestartICE(t, env).t)
  {
    hide Offer, Nth;
    OfferIds(t, true, env);
  }

  lemma IdStep(t: Transport, e: Event)
    requires SignallingInv(t) && IdInv(t) && OffererEvent(e) && (e.a.RemoteAnswer? ==> e.a.id != NO_ID)
    ensures IdInv(Step(t, e.a, e.env).t)
  {
    hide Offer, AcceptAnswer, RestartICE, AcceptOffer, Nth, Matches;
    match e.a
    case Negotiate => OfferIds(t, false, e.env);
    case RequestRestart => RestartIds(t, e.env);
    case RunGatheringComplete =>
      var t1 := t.(completions := if t.completions > 0 then t.completions - 1 else 0, restartAfterGathering := false);
      RestartIds(t1, e.env);
    case RemoteAnswer(answer, id) => AnswerIds(t, answer, id, e.env);
    case _ =>
  }

  /** In every run whose answers carry ids, over any number of offers and wraps. */
  lemma {:induction false} IdsAlways(events: seq<Event>)
    requires OffererRun(events) && AnswersCarryIds(events)
    ensures IdInv(Run(INIT, events))
    decreases |events|
  {
    if events != [] {
      hide Step, IdInv;
      var init := events[..|events| - 1];
      IdsAlways(init);
      OffererAlways(init);
      IdStep(Run(INIT, init), events[|events| - 1]);
    }
  }

  /** The answer to the outstanding offer is applied and settles it, and any other
      id changes nothing, in every reachable state. */
  lemma AnswerEffect(events: seq<Event>, answer: Description, id: uint32, env: Env)
    requires OffererRun(events) && AnswersCarryIds(events) && id != NO_ID
    ensures var t := Run(INIT, events); var r := AcceptAnswer(t, answer, id, env);
      && (t.negotiation == Idle || id != t.localId ==> r == Good(t))
      && (t.negotiation != Idle && id == t.localId && env.setRemote != Refused ==>
            r.t.h.applied == t.h.applied + [id] && r.t.remoteId == t.localId)
  {
    IdsAlways(events);
    OffererAlways(events);
    AcceptedIff(Run(INIT, events), id);
  }

  // ---- answers without an id ----

  /** How many answers were applied up to and including the last one with an id. */
  function LastWithId(applied: seq<uint32>): nat {
    if applied == [] then 0
    else if applied[|applied| - 1] != NO_ID then |applied|
    else LastWithId(applied[..|applied| - 1])
  }

  /** The ids of any offerer run: offers are numbered in ring order, an applied answer
      carries its offer's id or none, and remote is the last id an answer carried. */
  ghost predicate LooseIdInv(t: Transport) {
    && |t.h.sent| == |t.h.applied| + (if t.negotiation == Idle then 0 else 1)
    && t.localId == Nth(|t.h.sent|)
    && LastWithId(t.h.applied) <= |t.h.applied|
    && t.remoteId == Nth(LastWithId(t.h.applied))
  }

  lemma OfferLoose(t: Transport, iceRestart: bool, env: Env)
    requires LooseIdInv(t)
    ensures LooseIdInv(Offer(t, iceRestart, env).t)
  {
    hide Nth, Next, LastWithId;
    NthStep(|t.h.sent|);
  }

  lemma AppliedLoose(applied: seq<uint32>, id: uint32)
    ensures LastWithId(applied + [id]) == if id != NO_ID then |applied| + 1 else LastWithId(applied)
  {
    assert (applied + [id])[..|applied|] == applied;
  }

  /** An id that is accepted is the outstanding offer's or the last one sent. */
  lemma AcceptedIsLocal(id: uint32, remote: uint32, local: uint32)
    requires id != NO_ID && Classify(id, remote, local) == Accept
    ensures id == local && local != remote
  {
  }

  lemma AnswerLoose(t: Transport, answer: Description, id: uint32, env: Env)
    requires SignallingInv(t) && LooseIdInv(t)
    ensures LooseIdInv(AcceptAnswer(t, answer, id, env).t)
  {
    hide Offer, Nth, Classify, Next, LastWithId;
    if Classify(id, t.remoteId, t.localId) == Accept {
      if id != NO_ID { AcceptedIsLocal(id, t.remoteId, t.localId); }
      var t1 := StopTimeout(t);
      if t1.sig == Stable {
        OfferLoose(t1.(negotiation := Idle, offerRestartsICE := false), false, env);
      } else if RemoteAccepted(t1, false, env) {
        AppliedLoose(t.h.applied, id);
        OfferLoose(Answered(t1, answer, id).(negotiation := Idle, offerRestartsICE := false), false, env);
      }
    }
  }

  lemma RestartLoose(t: Transport, env: Env)
    requires LooseIdInv(t)
    ensures LooseIdInv(RestartICE(t, env).t)
  {
    hide Offer, Nth, LastWithId;
    OfferLoose(t, true, env);
  }

  lemma LooseStep(t: Transport, e: Event)
    requires SignallingInv(t) && LooseIdInv(t) && OffererEvent(e)
    ensures LooseIdInv(Step(t, e.a, e.env).t)
  {
    hide Offer, AcceptAnswer, RestartICE, AcceptOffer, Nth, Matches, LastWithId;
    match e.a
    case Negotiate => OfferLoose(t, false, e.env);
    case RequestRestart => RestartLoose(t, e.env);
    case RunGatheringComplete =>
      var t1 := t.(completions := if t.completions > 0 then t.completions - 1 else 0, restartAfterGathering := false);
      RestartLoose(t1, e.env);
    case RemoteAnswer(answer, id) => AnswerLoose(t, answer, id, e.env);
    case _ =>
  }

  /** In every offerer run, with and without ids. */
  lemma {:induction false} LooseIdsAlways(events: seq<Event>)
    requires OffererRun(events)
    ensures LooseIdInv(Run(INIT, events))
    decreases |events|
  {
    if events != [] {
      hide Step, LooseIdInv;
      var init := events[..|events| - 1];
      LooseIdsAlways(init);
      OffererAlways(init);
      LooseStep(Run(INIT, init), events[|events| - 1]);
    }
  }

  /** The answer is accepted and finds signalling stable. */
  predicate ReachesStable(t: Transport, id: uint32) {
    Classify(id, t.remoteId, t.localId) == Accept && t.sig == Stable
  }

  /** Local is ahead of remote by less than half the 32-bit range. */
  predicate Ahead(local: uint32, remote: uint32) { AsInt32(Trunc32(local - remote)) > 0 }

  /** What makes an answer reach it, in terms of the answers applied so far: nothing is
      outstanding and either it carries no id, or it carries the id of the last offer and
      that offer's answer carried none (and the ids have not gone half round the ring
      since one did). */
  predicate StableGuard(t: Transport, id: uint32) {
    && t.negotiation == Idle
    && (id == NO_ID || (&& id == t.localId && t.h.applied != [] && t.h.applied[|t.h.applied| - 1] == NO_ID
                        && (t.remoteId == NO_ID || Ahead(t.localId, t.remoteId))))
  }

  lemma StableIff(t: Transport, id: uint32)
    requires SignallingInv(t) && LooseIdInv(t)
    ensures ReachesStable(t, id) <==> StableGuard(t, id)
  {
    hide Nth;
    if t.negotiation == Idle && id != NO_ID {
      NthZero(|t.h.sent|);
      NthZero(LastWithId(t.h.applied));
    }
  }

  /** In every offerer run an answer reaches the "was stable" branch if and only if that
      guard holds, and it then starts an offer that nobody asked for. */
  lemma ReachesStableIff(events: seq<Event>, answer: Description, id: uint32, env: Env)
    requires OffererRun(events)
    ensures var t := Run(INIT, events);
      && (ReachesStable(t, id) <==> StableGuard(t, id))
      && (StableGuard(t, id) && OfferCallsSucceed(env) ==>
            var t' := AcceptAnswer(t, answer, id, env).t;
            t'.negotiation == AwaitingAnswer && |t'.h.sent| == |t.h.sent| + 1 && t'.h.applied == t.h.applied)
  {
    hide SignallingInv, LooseIdInv, StableGuard, Classify, Next;
    OffererAlways(events);
    LooseIdsAlways(events);
    StableIff(Run(INIT, events), id);
  }

  const FINE := Env(true, true, Applied, true, true, true, true, true)

  /** Both kinds of answer occur: after one answer without an id, a second reaches the
      branch with or without one. */
  lemma AnswersWithoutIds()
    ensures var t := Run(INIT, [Event(Negotiate, FINE), Event(RemoteAnswer(Description(0, None), NO_ID), FINE)]);
      t.localId == 1 && ReachesStable(t, NO_ID) && ReachesStable(t, 1)
  {
    var answer := Event(RemoteAnswer(Description(0, None), NO_ID), FINE);
    var events := [Event(Negotiate, FINE), answer];
    assert events[..1] == [Event(Negotiate, FINE)] && [Event(Negotiate, FINE)][..0] == [];
    assert Run(INIT, events[..1]) == Offer(INIT, false, FINE).t;
  }

  lemma NthZero(k: nat)
    ensures Nth(k) == NO_ID <==> k == 0
  {
  }

  /** Fewer than 2^31 - 1 offers after the last id that came back, the proviso holds. */
  lemma AheadWithin(j: nat, n: nat)
    requires 0 < j < n < j + TWO31 - 1
    ensures Ahead(Nth(n), Nth(j))
  {
    var m := TWO32 - 1;
    var a, b := (n - 1) % m, (j - 1) % m;
    var u := n - j;
    ModShift(j - 1, u, m);
    assert a == b + u || a == b + u - m;
  }

  lemma ModShift(x: nat, u: nat, m: nat)
    requires 0 < u < m
    ensures (x + u) % m == x % m + u || (x + u) % m == x % m + u - m
  {
    assert x == x / m * m + x % m;
    if x % m + u < m {
      Arith.DivUnique(x + u, m, x / m, x % m + u);
    } else {
      assert x + u == (x / m + 1) * m + (x % m + u - m);
      Arith.DivUnique(x + u, m, x / m + 1, x % m + u - m);
    }
  }

  // ---- restarts are not lost ----

  /** A restart is still to be offered. */
  predicate Owed(t: Transport) { t.restartAfterGathering || t.restartAtNextOffer }

  /** The outstanding offer is a restart. */
  predicate Covered(t: Transport) { t.negotiation != Idle && t.offerRestartsICE }

  /** A restart offer went out after the first n offers. */
  ghost predicate RestartSentSince(t: Transport, n: nat) {
    exists i :: n <= i < |t.h.sent| && t.h.sent[i].restart
  }

  /** pion's offer calls succeed. */
  predicate OfferCallsSucceed(env: Env) { env.createOffer && env.setLocal }

  ghost predicate AllSucceed(events: seq<Event>) {
    forall i :: 0 <= i < |events| ==> OfferCallsSucceed(events[i].env)
  }

  /** A request made once gathering has begun is deferred, covered or sent. */
  lemma RequestTaken(t: Transport, env: Env)
    requires OffererInv(t) && t.gathering != NotStarted && OfferCallsSucceed(env)
    ensures var t' := RestartICE(t, env).t; Owed(t') || Covered(t')
  {
  }

  /** t' follows t: a restart owed in t is still owed, covered or sent since, and
      only a restart offer sent since can newly cover anything. */
  ghost predicate Discharges(t: Transport, t': Transport) {
    && t.h.sent <= t'.h.sent
    && (Owed(t) ==> Owed(t') || Covered(t') || RestartSentSince(t', |t.h.sent|))
    && (Covered(t') ==> Covered(t) || RestartSentSince(t', |t.h.sent|))
  }

  lemma OfferDischarges(t: Transport, iceRestart: bool, env: Env)
    requires OfferCallsSucceed(env)
    ensures Discharges(t, Offer(t, iceRestart, env).t)
  {
    var t' := Offer(t, iceRestart, env).t;
    if t.negotiation == Idle {
      assert t'.h.sent[|t.h.sent|] == Sent(t'.localId, t'.offerRestartsICE);
    }
  }

  lemma AnswerDischarges(t: Transport, answer: Description, id: uint32, env: Env)
    requires SignallingInv(t) && OfferCallsSucceed(env)
    ensures Discharges(t, AcceptAnswer(t, answer, id, env).t)
  {
    hide Offer, Classify;
    if Classify(id, t.remoteId, t.localId) == Accept {
      var t1 := StopTimeout(t);
      if t1.sig == Stable {
        OfferDischarges(t1.(negotiation := Idle, offerRestartsICE := false), false, env);
      } else if RemoteAccepted(t1, false, env) {
        OfferDischarges(Answered(t1, answer, id).(negotiation := Idle, offerRestartsICE := false), false, env);
      }
    }
  }

  lemma RestartDischarges(t: Transport, env: Env)
    requires OffererInv(t) && t.gathering != NotStarted && OfferCallsSucceed(env)
    ensures Discharges(t.(restartAfterGathering := true), RestartICE(t, env).t)
    ensures Discharges(t, RestartICE(t, env).t)
  {
    hide Offer, OffererInv;
    RequestTaken(t, env);
    OfferDischarges(t, true, env);
  }

  lemma RestartStep(t: Transport, e: Event)
    requires OffererInv(t) && OffererEvent(e) && Enabled(t, e.a) && OfferCallsSucceed(e.env)
    ensures Discharges(t, Step(t, e.a, e.env).t)
  {
    hide Offer, AcceptOffer, Matches, Classify;
    match e.a
    case Negotiate => OfferDischarges(t, false, e.env);
    case RequestRestart =>
      if t.gathering != NotStarted { RestartDischarges(t, e.env); }
    case RunGatheringComplete =>
      if t.restartAfterGathering {
        hide RestartICE;
        RestartDischarges(t.(completions := t.completions - 1, restartAfterGathering := false), e.env);
      }
    case RemoteAnswer(answer, id) =>
      hide AcceptAnswer;
      AnswerDischarges(t, answer, id, e.env);
    case _ =>
  }

  /** The restart asked for at the start of a stretch is, at every later point,
      still owed, answered by a restart offer sent since, or covered by one that
      was outstanding when it was asked for. */
  lemma {:induction false} RestartHonoured(t0: Transport, events: seq<Event>)
    requires OffererInv(t0) && (Owed(t0) || Covered(t0))
    requires Possible(t0, events) && AllSucceed(events) && forall i :: 0 <= i < |events| ==> OffererEvent(events[i])
    ensures var t := Run(t0, events);
      && OffererInv(t) && t0.h.sent <= t.h.sent
      && (Covered(t0) || Owed(t) || RestartSentSince(t, |t0.h.sent|))
      && (Covered(t) ==> Covered(t0) || RestartSentSince(t, |t0.h.sent|))
    decreases |events|
  {
    if events != [] {
      var init, e := events[..|events| - 1], events[|events| - 1];
      RestartHonoured(t0, init);
      var mid := Run(t0, init);
      var t := Run(t0, events);
      assert t == Step(mid, e.a, e.env).t;
      hide Step, OffererInv, Owed, Covered;
      OffererStep(mid, e);
      RestartStep(mid, e);
      if RestartSentSince(mid, |t0.h.sent|) {
        var i :| |t0.h.sent| <= i < |mid.h.sent| && mid.h.sent[i].restart;
        assert t.h.sent[i] == mid.h.sent[i];
      }
      if RestartSentSince(t, |mid.h.sent|) {
        var i :| |mid.h.sent| <= i < |t.h.sent| && t.h.sent[i].restart;
        assert |t0.h.sent| <= i;
      }
    }
  }

  /** The next gathering completion moves a deferred restart on, and the next
      accepted answer sends a restart held for the next offer. */
  lemma RestartProgress(t: Transport, e: Event)
    requires OffererInv(t) && OffererEvent(e) && Enabled(t, e.a) && OfferCallsSucceed(e.env)
    ensures var t' := Step(t, e.a, e.env).t;
      && (e.a.RunGatheringComplete? && t.restartAfterGathering && t.gathering == Complete ==>
            t'.restartAtNextOffer || Covered(t'))
      && (e.a.RemoteAnswer? && t.restartAtNextOffer && t'.h.applied != t.h.applied ==>
            Covered(t') && !t'.restartAtNextOffer)
  {
    hide AcceptOffer, Matches, Classify;
    if e.a.RemoteAnswer? && t.restartAtNextOffer && Step(t, e.a, e.env).t.h.applied != t.h.applied {
      assert |t.h.applied + [e.a.id]| == |t.h.applied| + 1;
    }
  }

  /** An event drops an owed restart exactly when it is the one that tries to offer
      it and CreateOffer or SetLocalDescription fails. */
  lemma RestartLostIff(t: Transport, e: Event)
    requires OffererInv(t) && OffererEvent(e) && Enabled(t, e.a) && Owed(t)
    ensures var t' := Step(t, e.a, e.env).t;
      (!Owed(t') && !Covered(t') && |t'.h.sent| == |t.h.sent|)
      <==> (!OfferCallsSucceed(e.env) && TriesRestart(t, e))
  {
    hide AcceptAnswer, AcceptOffer, Matches, Classify, Next, TimerInv;
    match e.a
    case Negotiate =>
    case RequestRestart =>
    case RunGatheringComplete =>
    case RemoteAnswer(answer, id) => AnswerLoses(t, answer, id, e.env);
    case _ =>
  }

  lemma OfferEffect(t: Transport, iceRestart: bool, env: Env)
    requires t.negotiation == Idle
    ensures var t' := Offer(t, iceRestart, env).t;
      && !t'.restartAtNextOffer && t'.restartAfterGathering == t.restartAfterGathering
      && (if OfferCallsSucceed(env) then |t'.h.sent| == |t.h.sent| + 1
          else t'.h.sent == t.h.sent && t'.negotiation == Idle)
  {
    hide Next;
  }

  lemma AnswerLoses(t: Transport, answer: Description, id: uint32, env: Env)
    requires OffererInv(t) && Owed(t)
    ensures var t' := AcceptAnswer(t, answer, id, env).t;
      (!Owed(t') && !Covered(t') && |t'.h.sent| == |t.h.sent|)
      <==> (!OfferCallsSucceed(env) && t.restartAtNextOffer && !t.restartAfterGathering
            && Classify(id, t.remoteId, t.localId) == Accept && RemoteAccepted(t, false, env))
  {
    hide Classify, SettleAll, Offer;
    var t1 := StopTimeout(t);
    if Classify(id, t.remoteId, t.localId) == Accept {
      if t1.sig == Stable {
        OfferEffect(t1.(negotiation := Idle, offerRestartsICE := false), false, env);
      } else if RemoteAccepted(t1, false, env) {
        OfferEffect(Answered(t1, answer, id).(negotiation := Idle, offerRestartsICE := false), false, env);
      }
    }
  }

  /** The event makes the offer that carries the owed restart. */
  predicate TriesRestart(t: Transport, e: Event) {
    match e.a
    case RunGatheringComplete => t.restartAfterGathering && t.gathering == Complete && t.negotiation == Idle
    case RemoteAnswer(_, id) =>
      && t.restartAtNextOffer && !t.restartAfterGathering
      && Classify(id, t.remoteId, t.localId) == Accept && RemoteAccepted(t, false, e.env)
    case _ => false
  }

  // ---- timeouts ----

  /** A timeout is reported only for an offer that is still outstanding. */
  lemma TimeoutMeansOutstanding(events: seq<Event>, gen: nat, env: Env)
    requires OffererRun(events) && gen in Run(INIT, events).h.armed
    requires Timeout(Run(INIT, events), gen, env).err == Some(TimedOut)
    ensures Run(INIT, events).negotiation != Idle
  {
    OffererAlways(events);
  }
}
