/** Offers are answered: what becomes of an offer that has to wait for gathering, and of
    the latest offer of any run. */
module DeferralLaws {
  import opened Bits
  import opened NegotiationId
  import opened Wrappers
  import opened TransportSpec
  import opened AnswererLaws

  /** An offer and the id it came with. */
  datatype Offered = Offered(desc: Description, id: uint32)

  /** The offer that an event hands to pion: one just received, unless it changes the
      credential while gathering, or the deferred one once gathering is over. */
  function TakesUp(t: Transport, a: Action): Option<Offered> {
    match a
    case RemoteOffer(offer, id) =>
      if offer.credential.None? || (Restarts(t.ans, offer) && t.gathering == InProgress) then None
      else Some(Offered(offer, id))
    case RunGatheringComplete =>
      if t.ans.deferred.None? || t.gathering == InProgress then None
      else Some(Offered(t.ans.deferred.value, t.remoteId))
    case _ => None
  }

  predicate Readable(a: Action) { a.RemoteOffer? && a.offer.credential.Some? }

  /** pion applies the offer. */
  predicate Applies(env: Env) { env.setRemote != Refused }

  /** And the answer comes about. */
  predicate Answers(env: Env) { env.createAnswer && env.setLocal }

  /** A deferred offer changes the credential, and a gathering completion is to come. */
  ghost predicate WaitInv(t: Transport) {
    t.ans.deferred.Some? ==>
      && t.ans.deferred.value.credential.Some? && Restarts(t.ans, t.ans.deferred.value)
      && (t.gathering == InProgress || t.completions > 0)
  }

  /** The offer applied in this state. */
  function Application(t: Transport, x: Offered): Exchange {
    OfferApplied(x.desc, x.id, x.desc.credential.Some? && Restarts(t.ans, x.desc), t.gathering)
  }

  /** What an event adds to the exchange: the offer if one is received, and the offer taken
      up as far as pion's calls succeed. */
  ghost predicate Extends(t: Transport, e: Event, t': Transport) {
    var received := if Readable(e.a) then [OfferReceived(e.a.offer, e.a.id)] else [];
    var x := TakesUp(t, e.a);
    var ex := t.ans.exchange + received;
    && (x.None? || !Applies(e.env) ==> t'.ans.exchange == ex)
    && (x.Some? && Applies(e.env) && !Answers(e.env) ==>
          t'.ans.exchange == ex + [Application(t, x.value)])
    && (x.Some? && Applies(e.env) && Answers(e.env) ==>
          t'.ans.exchange == ex + [Application(t, x.value)] + [AnswerSent(x.value.desc, x.value.id)])
  }

  /** Signalling after an event: unstable from an offer's application to its answer. */
  ghost predicate Signals(t: Transport, e: Event, t': Transport) {
    t'.sig == if TakesUp(t, e.a).None? || !Applies(e.env) then t.sig
              else if Answers(e.env) then Stable else HaveRemoteOffer
  }

  /** What an event leaves deferred. */
  ghost predicate Defers(t: Transport, e: Event, t': Transport) {
    && (TakesUp(t, e.a).Some? ==> t'.ans.deferred == None)
    && (TakesUp(t, e.a).None? && Readable(e.a) ==> t'.ans.deferred == Some(e.a.offer) && t'.remoteId == e.a.id)
    && (TakesUp(t, e.a).None? && !Readable(e.a) ==> t'.ans.deferred == t.ans.deferred && t'.remoteId == t.remoteId)
  }

  lemma AnswerOutcome(t: Transport, offer: Description, id: uint32, env: Env)
    ensures var t' := Answer(t, offer, id, env).t;
      && t'.completions == t.completions && t'.remoteId == t.remoteId && t'.ans.deferred == t.ans.deferred
      && t'.ans.exchange == t.ans.exchange + (if Answers(env) then [AnswerSent(offer, id)] else [])
      && t'.sig == (if Answers(env) then Stable else t.sig)
  {
    assert t.ans.exchange + [] == t.ans.exchange;
  }

  lemma AcceptOutcome(t: Transport, offer: Description, id: uint32, env: Env)
    requires Passive(t) && offer.credential.Some?
    ensures var t' := AcceptOffer(t, offer, id, env).t; var ex := t.ans.exchange;
      var r := Restarts(t.ans, offer);
      && t'.completions == t.completions && t'.remoteId == id
      && (if r && t.gathering == InProgress then
            t'.ans == t.ans.(deferred := Some(offer)) && t'.gathering == InProgress && t'.sig == t.sig
          else
            && t'.ans.deferred == None
            && t'.ans.exchange ==
                 (if !Applies(env) then ex
                  else if !Answers(env) then ex + [OfferApplied(offer, id, r, t.gathering)]
                  else ex + [OfferApplied(offer, id, r, t.gathering)] + [AnswerSent(offer, id)])
            && t'.sig == if !Applies(env) then t.sig else if !Answers(env) then HaveRemoteOffer else Stable)
  {
    hide Describe, Answer;
    var r := Restarts(t.ans, offer);
    if !(r && t.gathering == InProgress) && Applies(env) {
      var t1 := t.(remoteId := id, ans := t.ans.(deferred := None));
      var ans := Noted(t1.ans, OfferApplied(offer, id, r, t.gathering));
      var t2 := SetRemote(t1, offer, HaveRemoteOffer).(ans := ans.(credential := offer.credential));
      AnswerOutcome(t2, offer, id, env);
      assert t2.ans.exchange + [] == t2.ans.exchange;
    }
  }

  lemma StepOutcome(t: Transport, e: Event)
    requires AnswererInv(t) && WaitInv(t) && AnswererEvent(e) && Enabled(t, e.a)
    ensures var t' := Step(t, e.a, e.env).t; Extends(t, e, t') && Defers(t, e, t') && Signals(t, e, t') && WaitInv(t')
  {
    hide AcceptOffer, DeferralInv, Classify, Trickle;
    assert t.ans.exchange + [] == t.ans.exchange;
    match e.a
    case RemoteOffer(offer, id) =>
      if offer.credential.Some? {
        AcceptOutcome(t.(ans := Noted(t.ans, OfferReceived(offer, id))), offer, id, e.env);
      } else {
        Unreadable(t, offer, id, e.env);
      }
    case RunGatheringComplete =>
      if t.ans.deferred.Some? {
        var t1 := t.(completions := t.completions - 1, ans := t.ans.(deferred := None));
        AcceptOutcome(t1, t.ans.deferred.value, t.remoteId, e.env);
      }
    case RemoteAnswer(_, id) => NeverAccepts(t, id);
    case _ =>
  }

  // ---- over whole runs ----

  ghost predicate AnswererRun(events: seq<Event>) {
    Possible(INIT, events) && forall i :: 0 <= i < |events| ==> AnswererEvent(events[i])
  }

  /** Over every answerer run: while an offer is deferred, gathering is in progress or a
      completion is queued that will find it. */
  lemma {:induction false} DeferredWaits(events: seq<Event>)
    requires AnswererRun(events)
    ensures WaitInv(Run(INIT, events)) && AnswererInv(Run(INIT, events))
    decreases |events|
  {
    AnswererAlways(events);
    if events != [] {
      hide Step, AnswererInv, WaitInv;
      DeferredWaits(events[..|events| - 1]);
      StepOutcome(Run(INIT, events[..|events| - 1]), events[|events| - 1]);
    }
  }

  /** An offer has been applied and not answered since. */
  predicate Unanswered(ex: seq<Exchange>) {
    ex != [] && !ex[|ex| - 1].AnswerSent? && (ex[|ex| - 1].OfferApplied? || Unanswered(ex[..|ex| - 1]))
  }

  lemma UnansweredAppend(ex: seq<Exchange>, x: Exchange)
    ensures Unanswered(ex + [x]) <==> !x.AnswerSent? && (x.OfferApplied? || Unanswered(ex))
  {
    assert (ex + [x])[..|ex|] == ex;
  }

  lemma SignalsStep(t: Transport, e: Event, t': Transport)
    requires Extends(t, e, t') && Signals(t, e, t')
    requires t.sig == if Unanswered(t.ans.exchange) then HaveRemoteOffer else Stable
    ensures t'.sig == if Unanswered(t'.ans.exchange) then HaveRemoteOffer else Stable
  {
    hide Unanswered, TakesUp, Restarts;
    var ex := t.ans.exchange;
    var x := TakesUp(t, e.a);
    var more := ex + (if Readable(e.a) then [OfferReceived(e.a.offer, e.a.id)] else []);
    if Readable(e.a) { UnansweredAppend(ex, OfferReceived(e.a.offer, e.a.id)); } else { assert more == ex; }
    if x.Some? {
      UnansweredAppend(more, Application(t, x.value));
      UnansweredAppend(more + [Application(t, x.value)], AnswerSent(x.value.desc, x.value.id));
    }
  }

  /** Over every answerer run signalling is stable if and only if every offer applied has
      been answered. */
  lemma {:induction false} StableIffAnswered(events: seq<Event>)
    requires AnswererRun(events)
    ensures var t := Run(INIT, events); t.sig == if Unanswered(t.ans.exchange) then HaveRemoteOffer else Stable
    decreases |events|
  {
    if events != [] {
      var init, e := events[..|events| - 1], events[|events| - 1];
      StableIffAnswered(init);
      DeferredWaits(init);
      hide Step, AnswererInv, WaitInv, Extends, Signals, Defers, Unanswered;
      StepOutcome(Run(INIT, init), e);
      SignalsStep(Run(INIT, init), e, Run(INIT, events));
    }
  }

  /** After every answerer run that leaves an offer deferred, the gathering completion that
      runs next applies and answers it, under its own id, if pion's calls succeed; the offer
      goes on waiting if and only if gathering has begun again meanwhile. */
  lemma CompletionAnswers(events: seq<Event>, env: Env)
    requires AnswererRun(events) && Run(INIT, events).ans.deferred.Some? && Run(INIT, events).completions > 0
    requires Applies(env) && Answers(env)
    ensures var t := Run(INIT, events); var t' := Step(t, RunGatheringComplete, env).t;
      var ex, offer := t.ans.exchange, t.ans.deferred.value;
      && (t.gathering == InProgress <==> t'.ans.deferred.Some?)
      && (t.gathering == InProgress ==> t'.ans == t.ans && t'.remoteId == t.remoteId)
      && (t.gathering != InProgress ==>
            t'.ans.exchange == ex + [OfferApplied(offer, t.remoteId, true, t.gathering), AnswerSent(offer, t.remoteId)])
  {
    hide Step, AnswererInv, Run;
    var t, e := Run(INIT, events), Event(RunGatheringComplete, env);
    DeferredWaits(events);
    StepOutcome(t, e);
    assert t.ans.exchange + [] == t.ans.exchange;
    if t.gathering == InProgress { CompletionKeeps(t, env); }
  }

  lemma CompletionKeeps(t: Transport, env: Env)
    requires AnswererInv(t) && WaitInv(t) && t.ans.deferred.Some? && t.gathering == InProgress
    ensures Step(t, RunGatheringComplete, env).t.ans == t.ans
  {
  }

  /** pion refused the offer, or the answer to it, in the event that took it up, and
      nothing has happened in the exchange since. */
  ghost predicate FailedIn(events: seq<Event>, x: Offered) {
    exists i :: 0 <= i < |events| && FailsAt(events, i, x)
  }

  ghost predicate FailsAt(events: seq<Event>, i: nat, x: Offered)
    requires i < |events|
  {
    && TakesUp(Run(INIT, events[..i]), events[i].a) == Some(x)
    && !(Applies(events[i].env) && Answers(events[i].env))
    && |Run(INIT, events[..i + 1]).ans.exchange| == |Run(INIT, events).ans.exchange|
  }

  lemma {:induction false} ExchangeGrows(events: seq<Event>, i: nat)
    requires AnswererRun(events) && i <= |events|
    ensures |Run(INIT, events[..i]).ans.exchange| <= |Run(INIT, events).ans.exchange|
    decreases |events|
  {
    if i < |events| {
      var init, e := events[..|events| - 1], events[|events| - 1];
      ExchangeGrows(init, i);
      assert init[..i] == events[..i];
      DeferredWaits(init);
      var mid := Run(INIT, init);
      assert Run(INIT, events) == Step(mid, e.a, e.env).t;
      hide Step, AnswererInv, Run;
      StepOutcome(mid, e);
    } else {
      assert events[..i] == events;
    }
  }

  /** Whether an offer has failed changes with an event only if that event takes it up or
      adds to the exchange. */
  lemma FailedStep(events: seq<Event>, x: Offered)
    requires AnswererRun(events) && events != []
    ensures var init, e := events[..|events| - 1], events[|events| - 1];
      var fails := TakesUp(Run(INIT, init), e.a) == Some(x) && !(Applies(e.env) && Answers(e.env));
      FailedIn(events, x) <==>
        fails || (|Run(INIT, events).ans.exchange| == |Run(INIT, init).ans.exchange| && FailedIn(init, x))
  {
    hide TakesUp, Applies, Answers, Run;
    var init, k := events[..|events| - 1], |events| - 1;
    assert events[..k + 1] == events;
    assert forall i :: 0 <= i < k ==> init[..i] == events[..i] && init[i] == events[i];
    ExchangeGrows(events, k);
    if FailedIn(init, x) {
      var i :| 0 <= i < |init| && FailsAt(init, i, x);
      if |Run(INIT, events).ans.exchange| == |Run(INIT, init).ans.exchange| {
        assert init[..i + 1] == events[..i + 1];
        assert FailsAt(events, i, x);
      }
    }
    if TakesUp(Run(INIT, init), events[k].a) == Some(x) && !(Applies(events[k].env) && Answers(events[k].env)) {
      assert FailsAt(events, k, x);
    }
    if FailedIn(events, x) {
      var i :| 0 <= i < |events| && FailsAt(events, i, x);
      if i < k {
        assert init[..i + 1] == events[..i + 1];
        ExchangeGrows(init, i + 1);
        assert FailsAt(init, i, x);
      }
    }
  }

  /** The state of the latest offer: unless it is answered, it is deferred or has failed,
      and not both; once applied it is no longer deferred. */
  ghost predicate Settled(events: seq<Event>, t: Transport) {
    match PhaseOf(t.ans.exchange)
    case Nothing => t.ans.deferred == None
    case Open(d, id) => t.ans.deferred.Some? <==> !FailedIn(events, Offered(d, id))
    case Due(d, id) => t.ans.deferred == None && FailedIn(events, Offered(d, id))
  }

  /** The phase after an event, told by the last thing it adds to the exchange. */
  lemma PhaseAfter(t: Transport, e: Event, t': Transport)
    requires Extends(t, e, t') && WaitInv(t)
    ensures var x := TakesUp(t, e.a); var ph, n := PhaseOf(t'.ans.exchange), |t'.ans.exchange| - |t.ans.exchange|;
      && n >= 0
      && (x.None? && !Readable(e.a) ==> n == 0 && ph == PhaseOf(t.ans.exchange))
      && (x.None? && Readable(e.a) ==> n > 0 && ph == Open(e.a.offer, e.a.id))
      && (x.Some? && !Applies(e.env) && !Readable(e.a) ==> n == 0 && ph == PhaseOf(t.ans.exchange))
      && (x.Some? && !Applies(e.env) && Readable(e.a) ==> ph == Open(x.value.desc, x.value.id))
      && (x.Some? && Applies(e.env) && !Answers(e.env) ==> ph == Due(x.value.desc, x.value.id))
      && (x.Some? && Applies(e.env) && Answers(e.env) ==> ph == Nothing)
  {
    hide Restarts;
    assert t.ans.exchange + [] == t.ans.exchange;
  }

  lemma {:induction false} SettledStep(events: seq<Event>, t: Transport, e: Event, t': Transport)
    requires AnswererRun(events) && events != [] && e == events[|events| - 1]
    requires t == Run(INIT, events[..|events| - 1]) && t' == Run(INIT, events)
    requires Settled(events[..|events| - 1], t) && Extends(t, e, t') && Defers(t, e, t') && WaitInv(t)
    requires t.ans.deferred.Some? ==> PhaseOf(t.ans.exchange) == Open(t.ans.deferred.value, t.remoteId)
    ensures Settled(events, t')
  {
    var ph := PhaseOf(t'.ans.exchange);
    if !ph.Nothing? { FailedStep(events, Offered(ph.desc, ph.id)); }
    PhaseAfter(t, e, t');
    TakenWhileDeferred(t, e.a);
    hide Run, FailedIn, AnswererRun, Restarts, Extends, PhaseOf, WaitInv, TakesUp;
  }

  lemma TakenWhileDeferred(t: Transport, a: Action)
    ensures TakesUp(t, a).Some? && !Readable(a) ==>
      t.ans.deferred.Some? && TakesUp(t, a).value == Offered(t.ans.deferred.value, t.remoteId)
  {
  }

  lemma {:induction false} SettledAlways(events: seq<Event>)
    requires AnswererRun(events)
    ensures Settled(events, Run(INIT, events))
    decreases |events|
  {
    if events != [] {
      var init, e := events[..|events| - 1], events[|events| - 1];
      SettledAlways(init);
      DeferredWaits(init);
      var mid := Run(INIT, init);
      assert Run(INIT, events) == Step(mid, e.a, e.env).t;
      hide Step, Run, Settled, Extends, Defers, WaitInv, Orderly, LastCredential, AnswererRun;
      StepOutcome(mid, e);
      SettledStep(events, mid, e, Run(INIT, events));
    }
  }

  /** Over every answerer run the latest readable offer is answered under its own id, or
      deferred, or SetRemoteDescription, CreateAnswer or SetLocalDescription failed in the
      very event that took it up. */
  lemma LatestOfferSettled(events: seq<Event>, j: nat)
    requires AnswererRun(events)
    requires LatestOffer(Run(INIT, events).ans.exchange, |Run(INIT, events).ans.exchange|, j)
    ensures var t := Run(INIT, events); var ex := t.ans.exchange; var x := Offered(ex[j].desc, ex[j].id);
      || ex[|ex| - 1] == AnswerSent(x.desc, x.id)
      || (t.ans.deferred == Some(x.desc) && t.remoteId == x.id)
      || FailedIn(events, x)
    ensures var ex := Run(INIT, events).ans.exchange;
      Run(INIT, events).ans.deferred.Some? ==>
        !FailedIn(events, Offered(ex[j].desc, ex[j].id)) && !ex[|ex| - 1].AnswerSent?
  {
    SettledAlways(events);
    DeferredWaits(events);
    hide Run, FailedIn, LastCredential;
    var t := Run(INIT, events);
    var ex := t.ans.exchange;
    LatestPhase(ex, j);
  }

  /** After the latest offer there is at most its application and then its answer. */
  lemma LatestPhase(ex: seq<Exchange>, j: nat)
    requires Orderly(ex) && LatestOffer(ex, |ex|, j)
    ensures var d, id := ex[j].desc, ex[j].id;
      || ex[|ex| - 1] == AnswerSent(d, id) || PhaseOf(ex) == Open(d, id) || PhaseOf(ex) == Due(d, id)
  {
    hide LastCredential;
    var k := |ex|;
    assert Follows(ex[..k - 1], ex[k - 1]);
    if j < k - 1 {
      assert ex[..k - 1][|ex[..k - 1]| - 1] == ex[k - 2];
      assert Follows(ex[..k - 2], ex[k - 2]);
      if j < k - 2 {
        assert ex[..k - 2][|ex[..k - 2]| - 1] == ex[k - 3];
        assert Follows(ex[..k - 3], ex[k - 3]);
      }
    }
  }

  // ---- errors ----

  lemma AcceptReports(t: Transport, offer: Description, id: uint32, env: Env)
    requires Passive(t) && offer.credential.Some?
    ensures AcceptOffer(t, offer, id, env).err.Some? <==>
      !(Restarts(t.ans, offer) && t.gathering == InProgress) && !(Applies(env) && Answers(env) && env.onAnswer)
  {
    hide Describe;
  }

  /** After every answerer run an event reports an error if and only if it brings an offer
      that cannot be read, a call of pion or of the handler failed in it, or the watch over
      an offer of this side says so. */
  lemma ReportsIff(events: seq<Event>, e: Event)
    requires AnswererRun(events) && AnswererEvent(e) && Enabled(Run(INIT, events), e.a) && !e.a.FireTimeout?
    ensures Step(Run(INIT, events), e.a, e.env).err.Some? <==>
      || (e.a.RemoteOffer? && !Readable(e.a))
      || (TakesUp(Run(INIT, events), e.a).Some? && !(Applies(e.env) && Answers(e.env) && e.env.onAnswer))
  {
    DeferredWaits(events);
    hide Run, AcceptOffer, Trickle, Classify, DeferralInv, Restarts, Possible;
    var t := Run(INIT, events);
    match e.a
    case RemoteOffer(offer, id) =>
      if offer.credential.Some? {
        AcceptReports(t.(ans := Noted(t.ans, OfferReceived(offer, id))), offer, id, e.env);
        SameRestarts(t.ans, OfferReceived(offer, id), offer);
      } else {
        UnreadableReports(t, offer, id, e.env);
      }
    case RunGatheringComplete =>
      if t.ans.deferred.Some? {
        var t1 := t.(completions := t.completions - 1, ans := t.ans.(deferred := None));
        AcceptReports(t1, t.ans.deferred.value, t.remoteId, e.env);
        SameDeferred(t.ans);
      }
    case RemoteAnswer(_, id) => NeverAccepts(t, id);
    case _ =>
  }

  lemma UnreadableReports(t: Transport, offer: Description, id: uint32, env: Env)
    requires offer.credential.None?
    ensures AcceptOffer(t, offer, id, env).err.Some?
  {
  }

  lemma SameRestarts(ans: Answering, x: Exchange, offer: Description)
    requires offer.credential.Some?
    ensures Restarts(Noted(ans, x), offer) == Restarts(ans, offer)
  {
  }

  lemma SameDeferred(ans: Answering)
    requires ans.deferred.Some? && ans.deferred.value.credential.Some?
    ensures Restarts(ans.(deferred := None), ans.deferred.value) == Restarts(ans, ans.deferred.value)
  {
  }
}
