/** Requests to negotiate are honoured: what becomes of a request to send an offer, and of
    the timeout that watches the offer sent. */
module RequestLaws {
  import opened Bits
  import opened NegotiationId
  import opened Wrappers
  import opened TransportSpec
  import opened TransportLaws

  /** The event calls CreateOffer: nothing is outstanding and it asks for an offer, or it
      is the answer that the next offer waits for. */
  predicate Attempts(t: Transport, e: Event) {
    match e.a
    case Negotiate => t.negotiation == Idle
    case RequestRestart => t.gathering == Complete && t.negotiation == Idle
    case RunGatheringComplete => t.restartAfterGathering && t.gathering == Complete && t.negotiation == Idle
    case RemoteAnswer(_, id) =>
      && Classify(id, t.remoteId, t.localId) == Accept
      && (t.sig == Stable || (RemoteAccepted(t, false, e.env) && t.negotiation == RenegotiatePending))
    case _ => false
  }

  /** The event applies an answer. */
  predicate Applies(t: Transport, e: Event) {
    && e.a.RemoteAnswer? && Classify(e.a.id, t.remoteId, t.localId) == Accept
    && t.sig != Stable && RemoteAccepted(t, false, e.env)
  }

  /** How an event changes what is pending, created and sent. */
  ghost predicate Moves(t: Transport, e: Event, t': Transport) {
    && |t'.h.created| == |t.h.created| + (if Attempts(t, e) then 1 else 0)
    && |t'.h.sent| == |t.h.sent| + (if Attempts(t, e) && OfferCallsSucceed(e.env) then 1 else 0)
    && |t'.h.applied| == |t.h.applied| + (if Applies(t, e) then 1 else 0)
    && (Attempts(t, e) ==> t'.negotiation == if OfferCallsSucceed(e.env) then AwaitingAnswer else Idle)
    && (!Attempts(t, e) && t.negotiation == Idle ==> t'.negotiation == Idle)
    && (!Attempts(t, e) && t.negotiation == RenegotiatePending ==> t'.negotiation == RenegotiatePending)
    && (Applies(t, e) && t.negotiation == RenegotiatePending ==> Attempts(t, e))
    && (e.a.Negotiate? && t.negotiation != Idle ==> t'.negotiation == RenegotiatePending)
  }

  lemma OfferMoves(t: Transport, iceRestart: bool, env: Env)
    ensures var t' := Offer(t, iceRestart, env).t;
      && t'.h.applied == t.h.applied
      && (if t.negotiation == Idle then
            && |t'.h.created| == |t.h.created| + 1
            && |t'.h.sent| == |t.h.sent| + (if OfferCallsSucceed(env) then 1 else 0)
            && t'.negotiation == (if OfferCallsSucceed(env) then AwaitingAnswer else Idle)
          else t'.h == t.h && t'.negotiation == RenegotiatePending)
  {
    hide Launch, LocalSet;
    if t.negotiation == Idle {
      var restart := iceRestart || t.restartAtNextOffer;
      LaunchMoves(NoteCreated(t, restart), restart, env);
    }
  }

  lemma LaunchMoves(t: Transport, restart: bool, env: Env)
    ensures var t' := Launch(LocalSet(t, HaveLocalOffer, env), restart);
      && t'.h.created == t.h.created && t'.h.applied == t.h.applied
      && |t'.h.sent| == |t.h.sent| + 1 && t'.negotiation == AwaitingAnswer
  {
    hide Next;
  }

  lemma AnswerMoves(t: Transport, answer: Description, id: uint32, env: Env)
    requires SignallingInv(t)
    ensures Moves(t, Event(RemoteAnswer(answer, id), env), AcceptAnswer(t, answer, id, env).t)
  {
    hide Offer, Classify, Describe;
    if Classify(id, t.remoteId, t.localId) == Accept {
      var t1 := StopTimeout(t);
      if t1.sig == Stable {
        OfferMoves(t1.(negotiation := Idle, offerRestartsICE := false), false, env);
      } else if RemoteAccepted(t1, false, env) {
        OfferMoves(Answered(t1, answer, id).(negotiation := Idle, offerRestartsICE := false), false, env);
      }
    }
  }

  lemma StepMoves(t: Transport, e: Event)
    requires OffererInv(t) && OffererEvent(e)
    ensures Moves(t, e, Step(t, e.a, e.env).t)
  {
    hide Offer, AcceptAnswer, AcceptOffer, Classify, Matches;
    match e.a
    case Negotiate => OfferMoves(t, false, e.env);
    case RequestRestart => OfferMoves(t, true, e.env);
    case RunGatheringComplete =>
      var t1 := t.(completions := if t.completions > 0 then t.completions - 1 else 0, restartAfterGathering := false);
      OfferMoves(t1, true, e.env);
    case RemoteAnswer(answer, id) => AnswerMoves(t, answer, id, e.env);
    case _ =>
  }

  // ---- over whole runs ----

  /** The events of an offerer from a state on. */
  ghost predicate OffersFrom(t0: Transport, events: seq<Event>) {
    Possible(t0, events) && forall i :: 0 <= i < |events| ==> OffererEvent(events[i])
  }

  /** Some event of the run from t0 calls CreateOffer. */
  ghost predicate Attempted(t0: Transport, events: seq<Event>) {
    exists i :: 0 <= i < |events| && Attempts(Run(t0, events[..i]), events[i])
  }

  /** Every event of the run that calls CreateOffer meets a failing CreateOffer or
      SetLocalDescription. */
  ghost predicate AttemptsFail(t0: Transport, events: seq<Event>) {
    forall i :: 0 <= i < |events| && Attempts(Run(t0, events[..i]), events[i]) ==> !OfferCallsSucceed(events[i].env)
  }

  lemma AttemptedStep(t0: Transport, events: seq<Event>)
    requires events != []
    ensures var init, e := events[..|events| - 1], events[|events| - 1];
      && (Attempted(t0, events) <==> Attempted(t0, init) || Attempts(Run(t0, init), e))
      && (AttemptsFail(t0, events) <==>
            AttemptsFail(t0, init) && (Attempts(Run(t0, init), e) ==> !OfferCallsSucceed(e.env)))
  {
    hide Attempts, Run;
    var init, k := events[..|events| - 1], |events| - 1;
    assert forall i :: 0 <= i < k ==> init[..i] == events[..i] && init[i] == events[i];
    if Attempted(t0, init) {
      var i :| 0 <= i < |init| && Attempts(Run(t0, init[..i]), init[i]);
      assert Attempts(Run(t0, events[..i]), events[i]);
    }
    if Attempts(Run(t0, init), events[k]) {
      assert Attempts(Run(t0, events[..k]), events[k]);
    }
    if Attempted(t0, events) {
      var i :| 0 <= i < |events| && Attempts(Run(t0, events[..i]), events[i]);
      if i < k { assert Attempts(Run(t0, init[..i]), init[i]); }
    }
    if AttemptsFail(t0, events) {
      forall i | 0 <= i < |init| && Attempts(Run(t0, init[..i]), init[i]) ensures !OfferCallsSucceed(init[i].env) {
        assert Attempts(Run(t0, events[..i]), events[i]);
      }
    }
    if AttemptsFail(t0, init) && (Attempts(Run(t0, init), events[k]) ==> !OfferCallsSucceed(events[k].env)) {
      forall i | 0 <= i < |events| && Attempts(Run(t0, events[..i]), events[i])
        ensures !OfferCallsSucceed(events[i].env)
      {
        if i < k { assert Attempts(Run(t0, init[..i]), init[i]); }
      }
    }
  }

  /** What has become of the request that the first event makes in t0. */
  ghost predicate Accounted(t0: Transport, events: seq<Event>, t: Transport) {
    && (!Attempted(t0, events) ==>
          t.negotiation == RenegotiatePending && |t.h.sent| == |t0.h.sent| && |t.h.applied| == |t0.h.applied|)
    && (Attempted(t0, events) && AttemptsFail(t0, events) ==> t.negotiation == Idle && |t.h.sent| == |t0.h.sent|)
    && (!AttemptsFail(t0, events) ==> |t.h.sent| > |t0.h.sent|)
  }

  lemma {:induction false} RequestAccounted(t0: Transport, events: seq<Event>)
    requires OffererInv(t0) && OffersFrom(t0, events) && events != [] && events[0].a == Negotiate
    ensures OffererInv(Run(t0, events)) && Accounted(t0, events, Run(t0, events))
    decreases |events|
  {
    var init, e := events[..|events| - 1], events[|events| - 1];
    var mid := Run(t0, init);
    assert Run(t0, events) == Step(mid, e.a, e.env).t;
    AttemptedStep(t0, events);
    if init == [] {
      assert mid == t0;
      hide Step, OffererInv, Attempts, AttemptsFail;
      assert !Attempted(t0, init);
      NothingFails(t0);
      OffererStep(t0, e);
      StepMoves(t0, e);
      AttemptsNegotiate(t0, e.env);
    } else {
      RequestAccounted(t0, init);
      hide Step, Run, OffererInv, Attempted, AttemptsFail;
      OffererStep(mid, e);
      StepMoves(mid, e);
    }
  }

  lemma NothingFails(t: Transport)
    ensures AttemptsFail(t, [])
  {
  }

  lemma AttemptsNegotiate(t: Transport, env: Env)
    ensures Attempts(t, Event(Negotiate, env)) <==> t.negotiation == Idle
  {
  }

  /** With pion's offer calls succeeding, a request to negotiate made in any reachable state
      is, at every later point of every run, followed by an offer sent after it, or still
      pending with no answer applied since. */
  lemma RequestHonoured(t0: Transport, events: seq<Event>)
    requires OffererInv(t0) && OffersFrom(t0, events) && events != [] && events[0].a == Negotiate
    requires AllSucceed(events)
    ensures var t := Run(t0, events);
      || |t.h.sent| > |t0.h.sent|
      || (t.negotiation == RenegotiatePending && |t.h.applied| == |t0.h.applied|)
  {
    hide Run, OffererInv, Attempts, OffersFrom;
    RequestAccounted(t0, events);
  }

  /** If nothing is outstanding, the offer goes out at once; otherwise the next answer
      applied sends it. */
  lemma RequestProgress(t: Transport, e: Event)
    requires OffererInv(t) && OffererEvent(e) && Enabled(t, e.a) && OfferCallsSucceed(e.env)
    ensures var t' := Step(t, e.a, e.env).t;
      && (e.a.Negotiate? && t.negotiation == Idle ==>
            t'.negotiation == AwaitingAnswer && |t'.h.sent| == |t.h.sent| + 1)
      && (|t'.h.applied| > |t.h.applied| && t.negotiation == RenegotiatePending ==>
            t'.negotiation == AwaitingAnswer && |t'.h.sent| == |t.h.sent| + 1)
  {
    hide Step, OffererInv, Attempts, Applies;
    StepMoves(t, e);
    AttemptsNegotiate(t, e.env);
  }

  /** Whatever fails, a request is lost, neither pending nor followed by an offer, if and
      only if an event since, the request included, called CreateOffer and every one that
      did met a failing CreateOffer or SetLocalDescription. */
  lemma RequestLostIff(t0: Transport, events: seq<Event>)
    requires OffererInv(t0) && OffersFrom(t0, events) && events != [] && events[0].a == Negotiate
    ensures var t := Run(t0, events);
      (t.negotiation != RenegotiatePending && |t.h.sent| == |t0.h.sent|)
      <==> (Attempted(t0, events) && AttemptsFail(t0, events))
  {
    hide Run, OffererInv, Attempted, AttemptsFail, OffersFrom;
    RequestAccounted(t0, events);
  }

  /** The calls of CreateOffer are those events. */
  lemma AttemptsCreate(t: Transport, e: Event)
    requires OffererInv(t) && OffererEvent(e)
    ensures Attempts(t, e) <==> |Step(t, e.a, e.env).t.h.created| > |t.h.created|
  {
    hide Step, OffererInv, Attempts, Applies;
    StepMoves(t, e);
  }

  // ---- the timeout of an offer ----

  /** The outstanding offer is watched: its timeout, when it fires, is not stale. */
  predicate Watched(t: Transport) { t.gen in t.h.armed }

  /** An answer to the outstanding offer is accepted and SetRemoteDescription fails. */
  predicate Refuses(t: Transport, e: Event) {
    && e.a.RemoteAnswer? && Classify(e.a.id, t.remoteId, t.localId) == Accept
    && t.sig != Stable && !RemoteAccepted(t, false, e.env)
  }

  /** One timeout is armed for every offer, for no other reason, and each is new. */
  ghost predicate OneTimeoutEach(t: Transport) {
    |t.h.armed| == |t.h.sent| && forall g :: g in t.h.armed ==> g <= t.gen
  }

  lemma OfferWatches(t: Transport, iceRestart: bool, env: Env)
    requires OneTimeoutEach(t)
    ensures var t' := Offer(t, iceRestart, env).t;
      && OneTimeoutEach(t')
      && (t.negotiation == Idle && OfferCallsSucceed(env) ==> Watched(t'))
      && (t.negotiation != Idle || !OfferCallsSucceed(env) ==> t'.gen == t.gen && t'.h.armed == t.h.armed)
  {
    hide Launch, LocalSet;
    if t.negotiation == Idle {
      var restart := iceRestart || t.restartAtNextOffer;
      LaunchWatches(NoteCreated(t, restart), restart, env);
    }
  }

  lemma LaunchWatches(t: Transport, restart: bool, env: Env)
    requires OneTimeoutEach(t)
    ensures var t' := Launch(LocalSet(t, HaveLocalOffer, env), restart); OneTimeoutEach(t') && Watched(t')
  {
    hide Next;
    assert t.gen + 1 !in t.h.armed;
  }

  /** How an event changes the watch over an outstanding offer. */
  ghost predicate WatchMoves(t: Transport, e: Event, t': Transport) {
    && OneTimeoutEach(t')
    && (t.negotiation == Idle && t'.negotiation != Idle ==> Watched(t'))
    && (|t'.h.sent| > |t.h.sent| ==> Watched(t'))
    && (t.negotiation != Idle && t'.negotiation != Idle && |t'.h.sent| == |t.h.sent| ==>
          (Watched(t') <==> Watched(t) && !Refuses(t, e)))
    && (Refuses(t, e) ==> t'.negotiation == t.negotiation && |t'.h.sent| == |t.h.sent|)
  }

  lemma AnswerWatches(t: Transport, answer: Description, id: uint32, env: Env)
    requires SignallingInv(t) && OneTimeoutEach(t)
    ensures WatchMoves(t, Event(RemoteAnswer(answer, id), env), AcceptAnswer(t, answer, id, env).t)
  {
    hide Offer, Classify, Describe;
    if Classify(id, t.remoteId, t.localId) == Accept {
      var t1 := StopTimeout(t);
      if t1.sig == Stable {
        var t2 := t1.(negotiation := Idle, offerRestartsICE := false);
        OfferWatches(t2, false, env);
        OfferMoves(t2, false, env);
      } else if RemoteAccepted(t1, false, env) {
        var t2 := Answered(t1, answer, id).(negotiation := Idle, offerRestartsICE := false);
        OfferWatches(t2, false, env);
        OfferMoves(t2, false, env);
      }
    }
  }

  lemma StepWatches(t: Transport, e: Event)
    requires OffererInv(t) && OffererEvent(e) && OneTimeoutEach(t)
    ensures WatchMoves(t, e, Step(t, e.a, e.env).t)
  {
    hide Offer, AcceptAnswer, AcceptOffer, Classify, Matches;
    match e.a
    case Negotiate =>
      OfferWatches(t, false, e.env);
      OfferMoves(t, false, e.env);
    case RequestRestart =>
      OfferWatches(t, true, e.env);
      OfferMoves(t, true, e.env);
    case RunGatheringComplete =>
      var t1 := t.(completions := if t.completions > 0 then t.completions - 1 else 0, restartAfterGathering := false);
      OfferWatches(t1, true, e.env);
      OfferMoves(t1, true, e.env);
    case RemoteAnswer(answer, id) => AnswerWatches(t, answer, id, e.env);
    case _ =>
  }

  /** An accepted answer that pion refused has taken the outstanding offer's timeout away. */
  ghost predicate AnswerRefused(events: seq<Event>) {
    exists i :: 0 <= i < |events| && Refuses(Run(INIT, events[..i]), events[i])
      && |Run(INIT, events[..i]).h.sent| == |Run(INIT, events).h.sent|
  }

  lemma RefusedStep(events: seq<Event>)
    requires events != []
    ensures var init, e := events[..|events| - 1], events[|events| - 1];
      |Run(INIT, events).h.sent| == |Run(INIT, init).h.sent| ==>
        (AnswerRefused(events) <==> AnswerRefused(init) || Refuses(Run(INIT, init), e))
  {
    hide Refuses, Run;
    var init, k := events[..|events| - 1], |events| - 1;
    assert forall i :: 0 <= i < k ==> init[..i] == events[..i] && init[i] == events[i];
    if |Run(INIT, events).h.sent| == |Run(INIT, init).h.sent| {
      if AnswerRefused(init) {
        var i :| 0 <= i < |init| && Refuses(Run(INIT, init[..i]), init[i])
          && |Run(INIT, init[..i]).h.sent| == |Run(INIT, init).h.sent|;
        assert Refuses(Run(INIT, events[..i]), events[i]);
      }
      if Refuses(Run(INIT, init), events[k]) {
        assert Refuses(Run(INIT, events[..k]), events[k]);
      }
      if AnswerRefused(events) {
        var i :| 0 <= i < |events| && Refuses(Run(INIT, events[..i]), events[i])
          && |Run(INIT, events[..i]).h.sent| == |Run(INIT, events).h.sent|;
        if i < k { assert Refuses(Run(INIT, init[..i]), init[i]); }
      }
    }
  }

  /** After an event that sends an offer, no answer to it has been refused. */
  lemma NoneRefused(events: seq<Event>)
    requires OffererRun(events) && events != []
    requires |Run(INIT, events).h.sent| > |Run(INIT, events[..|events| - 1]).h.sent|
    ensures !AnswerRefused(events)
  {
    hide Refuses;
    forall i | 0 <= i < |events| ensures |Run(INIT, events[..i]).h.sent| < |Run(INIT, events).h.sent| {
      SentBefore(events, i);
    }
  }

  lemma {:induction false} SentBefore(events: seq<Event>, i: nat)
    requires OffererRun(events) && i < |events|
    ensures |Run(INIT, events[..i]).h.sent| <= |Run(INIT, events[..|events| - 1]).h.sent|
    decreases |events|
  {
    hide Run;
    var init := events[..|events| - 1];
    if i < |init| {
      SentBefore(init, i);
      assert init[..i] == events[..i];
      SentKept(init);
    }
  }

  lemma SentKept(events: seq<Event>)
    requires OffererRun(events) && events != []
    ensures |Run(INIT, events[..|events| - 1]).h.sent| <= |Run(INIT, events).h.sent|
  {
    var init, e := events[..|events| - 1], events[|events| - 1];
    OffererAlways(init);
    hide Step, OffererInv;
    StepMoves(Run(INIT, init), e);
  }

  /** Over every offerer run: one timeout is armed for every offer sent, and the timeout of
      the outstanding offer is current unless pion refused an answer to that offer. */
  lemma {:induction false} WatchAlways(events: seq<Event>)
    requires OffererRun(events)
    ensures var t := Run(INIT, events);
      OneTimeoutEach(t) && (t.negotiation != Idle ==> (Watched(t) <==> !AnswerRefused(events)))
    decreases |events|
  {
    if events != [] {
      var init, e := events[..|events| - 1], events[|events| - 1];
      WatchAlways(init);
      OffererAlways(init);
      var mid := Run(INIT, init);
      assert Run(INIT, events) == Step(mid, e.a, e.env).t;
      RefusedStep(events);
      if |Run(INIT, events).h.sent| > |mid.h.sent| { NoneRefused(events); }
      hide Step, OffererInv, AnswerRefused, Run;
      StepWatches(mid, e);
      StepMoves(mid, e);
    }
  }

  /** While it is watched, an outstanding offer that gets no answer is reported when its
      timeout fires, if and only if the transport is connected. */
  lemma TimeoutReports(events: seq<Event>, env: Env)
    requires OffererRun(events) && Run(INIT, events).negotiation != Idle && !AnswerRefused(events)
    ensures var t := Run(INIT, events);
      && Enabled(t, FireTimeout(t.gen))
      && (Step(t, FireTimeout(t.gen), env).err == Some(TimedOut) <==> env.connected)
  {
    hide AnswerRefused, Run;
    WatchAlways(events);
  }

  // ---- offers sent again ----

  /** localId is the id of the latest offer sent, and there is one if one is outstanding. */
  ghost predicate LastInv(t: Transport) {
    && (t.h.sent == [] ==> t.negotiation == Idle)
    && (t.h.sent != [] ==> t.h.sent[|t.h.sent| - 1].id == t.localId)
  }

  lemma LaunchLast(t: Transport, restart: bool, env: Env)
    ensures var t' := Launch(LocalSet(t, HaveLocalOffer, env), restart); LastInv(t') && t'.h.resent == t.h.resent
  {
    hide Next;
  }

  lemma OfferLast(t: Transport, iceRestart: bool, env: Env)
    requires LastInv(t)
    ensures LastInv(Offer(t, iceRestart, env).t) && Offer(t, iceRestart, env).t.h.resent == t.h.resent
  {
    hide Launch, LocalSet;
    if t.negotiation == Idle {
      var restart := iceRestart || t.restartAtNextOffer;
      LaunchLast(NoteCreated(t, restart), restart, env);
    }
  }

  lemma AnswerLast(t: Transport, answer: Description, id: uint32, env: Env)
    requires LastInv(t)
    ensures var t' := AcceptAnswer(t, answer, id, env).t; LastInv(t') && t'.h.resent == t.h.resent
  {
    hide Offer, Classify, Describe;
    if Classify(id, t.remoteId, t.localId) == Accept {
      var t1 := StopTimeout(t);
      OfferLast(t1.(negotiation := Idle, offerRestartsICE := false), false, env);
      OfferLast(Answered(t1, answer, id).(negotiation := Idle, offerRestartsICE := false), false, env);
    }
  }

  /** The event asks for an ICE restart that can neither be offered at once nor wait for
      gathering: an offer is outstanding. */
  predicate AsksAgain(t: Transport, e: Event) {
    && (e.a.RequestRestart? || (e.a.RunGatheringComplete? && t.restartAfterGathering))
    && t.gathering == Complete && t.negotiation != Idle
  }

  lemma StepLast(t: Transport, e: Event)
    requires OffererInv(t) && OffererEvent(e) && LastInv(t)
    ensures var t' := Step(t, e.a, e.env).t;
      && LastInv(t')
      && t'.h.resent == t.h.resent + (if AsksAgain(t, e) then [t.localId] else [])
  {
    hide Offer, AcceptAnswer, AcceptOffer, Matches;
    assert t.h.resent + [] == t.h.resent;
    match e.a
    case Negotiate => OfferLast(t, false, e.env);
    case RequestRestart => OfferLast(t, true, e.env);
    case RunGatheringComplete =>
      var t1 := t.(completions := if t.completions > 0 then t.completions - 1 else 0, restartAfterGathering := false);
      OfferLast(t1, true, e.env);
    case RemoteAnswer(answer, id) => AnswerLast(t, answer, id, e.env);
    case _ =>
  }

  lemma {:induction false} LastAlways(events: seq<Event>)
    requires OffererRun(events)
    ensures LastInv(Run(INIT, events))
    decreases |events|
  {
    if events != [] {
      var init, e := events[..|events| - 1], events[|events| - 1];
      LastAlways(init);
      OffererAlways(init);
      hide Step, OffererInv, LastInv;
      StepLast(Run(INIT, init), e);
    }
  }

  /** After every offerer run: an ICE restart asked for over an outstanding offer sends the
      latest offer again, and nothing else does. */
  lemma ResendsOutstanding(events: seq<Event>, e: Event)
    requires OffererRun(events) && OffererEvent(e)
    ensures var t := Run(INIT, events); var t' := Step(t, e.a, e.env).t;
      if AsksAgain(t, e) then t.h.sent != [] && t'.h.resent == t.h.resent + [t.h.sent[|t.h.sent| - 1].id]
      else t'.h.resent == t.h.resent
  {
    hide Step, OffererInv, Run;
    LastAlways(events);
    OffererAlways(events);
    StepLast(Run(INIT, events), e);
    assert Run(INIT, events).h.resent + [] == Run(INIT, events).h.resent;
  }

  // ---- errors ----

  /** The current timeout fires on a connected transport. */
  predicate TimesOut(t: Transport, e: Event) { e.a.FireTimeout? && e.a.gen == t.gen && e.env.connected }

  lemma OfferReports(t: Transport, iceRestart: bool, env: Env)
    ensures Offer(t, iceRestart, env).err.Some? <==> t.negotiation == Idle && !(OfferCallsSucceed(env) && env.onOffer)
  {
    hide Launch, LocalSet;
  }

  lemma AnswerReports(t: Transport, answer: Description, id: uint32, env: Env)
    requires SignallingInv(t)
    ensures var e := Event(RemoteAnswer(answer, id), env);
      AcceptAnswer(t, answer, id, env).err.Some? <==>
        Refuses(t, e) || (Attempts(t, e) && !(OfferCallsSucceed(env) && env.onOffer))
  {
    hide Offer, Classify, Describe;
    var t1 := StopTimeout(t);
    OfferReports(t1.(negotiation := Idle, offerRestartsICE := false), false, env);
    OfferReports(Answered(t1, answer, id).(negotiation := Idle, offerRestartsICE := false), false, env);
  }

  /** In every reachable state of an offerer an event reports an error if and only if an
      offer it makes or sends again meets a failing call, pion refuses the answer it
      brings, or it is the timeout of the outstanding offer. */
  lemma ReportsIff(t: Transport, e: Event)
    requires OffererInv(t) && OffererEvent(e)
    ensures Step(t, e.a, e.env).err.Some? <==>
      || (Attempts(t, e) && !(OfferCallsSucceed(e.env) && e.env.onOffer))
      || (AsksAgain(t, e) && !e.env.onOffer) || Refuses(t, e) || TimesOut(t, e)
  {
    hide Offer, AcceptAnswer, AcceptOffer, Classify, Matches, Trickle;
    match e.a
    case Negotiate => OfferReports(t, false, e.env);
    case RequestRestart => OfferReports(t, true, e.env);
    case RunGatheringComplete =>
      var t1 := t.(completions := if t.completions > 0 then t.completions - 1 else 0, restartAfterGathering := false);
      OfferReports(t1, true, e.env);
    case RemoteAnswer(answer, id) => AnswerReports(t, answer, id, e.env);
    case _ =>
  }
}
