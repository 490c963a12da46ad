/** The event handlers of pc/pc.go as they are written: one object whose fields the
    event loop updates in place. Each is proved to compute TransportSpec's step. */
module TransportLoop {
  import opened Bits
  import opened NegotiationId
  import opened Wrappers
  import opened TransportSpec

  /** pion's peer connection, as far as negotiation sees it. A failed call leaves
      the signalling state unchanged. */
  class PeerConnection {
    var sig: Signalling
    var gathering: Gathering
    var hasLocal: bool
    var hasRemote: bool

    constructor ()
      ensures sig == Stable && gathering == NotStarted && !hasLocal && !hasRemote
    {
      sig, gathering, hasLocal, hasRemote := Stable, NotStarted, false, false;
    }

    method SetLocalDescription(next: Signalling, env: Env) returns (ok: bool)
      modifies this`sig, this`gathering, this`hasLocal
      ensures ok == env.setLocal
      ensures !ok ==> sig == old(sig) && gathering == old(gathering) && hasLocal == old(hasLocal)
      ensures ok ==> sig == next && hasLocal && gathering == if env.gathers then InProgress else old(gathering)
    {
      ok := env.setLocal;
      if ok {
        sig, hasLocal := next, true;
        if env.gathers {
          gathering := InProgress;
        }
      }
    }

    method SetRemoteDescription(isOffer: bool, env: Env) returns (outcome: SetRemoteOutcome)
      modifies this`sig, this`hasRemote
      ensures outcome == Refused <==>
              env.setRemote == Refused || (if isOffer then old(sig) == HaveLocalOffer else old(sig) != HaveLocalOffer)
      ensures outcome == Refused ==> sig == old(sig) && hasRemote == old(hasRemote)
      ensures outcome != Refused ==> sig == (if isOffer then HaveRemoteOffer else Stable) && hasRemote
    {
      if (isOffer && sig == HaveLocalOffer) || (!isOffer && sig != HaveLocalOffer) {
        return Refused;
      }
      outcome := env.setRemote;
      if outcome != Refused {
        sig, hasRemote := if isOffer then HaveRemoteOffer else Stable, true;
      }
    }
  }

  class Transport {
    const pc: PeerConnection
    var negotiation: Negotiation
    var localId: uint32
    var remoteId: uint32
    var restartAtNextOffer: bool
    var restartAfterGathering: bool
    var offerRestartsICE: bool
    var gen: nat
    var timer: Option<nat>
    var remoteUfrag: string
    var pendingCandidates: seq<Candidate>
    var offerCredential: Option<Credential>
    var deferredOffer: Option<Description>

    ghost var completions: nat
    ghost var h: History
    ghost var received: seq<Candidate>
    ghost var settled: seq<Settled>
    ghost var exchange: seq<Exchange>

    ghost function State(): TransportSpec.Transport
      reads this, pc
    {
      TransportSpec.Transport(
        negotiation, localId, remoteId, restartAtNextOffer, restartAfterGathering, offerRestartsICE, gen, timer,
        Candidacy(pc.hasRemote, remoteUfrag, pendingCandidates, received, settled),
        Answering(offerCredential, deferredOffer, exchange),
        pc.sig, pc.gathering, pc.hasLocal, completions, h)
    }

    constructor (pc: PeerConnection)
      requires pc.sig == Stable && pc.gathering == NotStarted && !pc.hasLocal && !pc.hasRemote
      ensures State() == INIT && this.pc == pc
    {
      this.pc := pc;
      negotiation, localId, remoteId := Idle, NO_ID, NO_ID;
      restartAtNextOffer, restartAfterGathering, offerRestartsICE := false, false, false;
      gen, timer := 0, None;
      remoteUfrag, pendingCandidates := "", [];
      offerCredential, deferredOffer := None, None;
      completions, h := 0, History([], [], [], {}, []);
      received, settled, exchange := [], [], [];
    }

    /** stopNegotiationTimeout. */
    method StopNegotiationTimeout()
      modifies this`gen, this`timer
      ensures State() == StopTimeout(old(State()))
    {
      gen := gen + 1;
      if timer.Some? {
        timer := None;
      }
    }

    /** armNegotiationTimeout. */
    method ArmNegotiationTimeout()
      modifies this`gen, this`timer, this`h
      ensures State() == ArmTimeout(old(State()))
    {
      StopNegotiationTimeout();
      timer := Some(gen);
      h := h.(armed := h.armed + {gen});
    }

    /** The event of a fired negotiation timer. */
    method OnNegotiationTimeout(armed: nat, env: Env) returns (err: Option<Failure>)
      modifies this`timer
      ensures Outcome(State(), err) == Timeout(old(State()), armed, env)
    {
      if armed != gen {
        return None;
      }
      timer := None;
      if !env.connected {
        return None;
      }
      err := Some(TimedOut);
    }

    /** offer. */
    method SendOffer(restart: bool, env: Env) returns (err: Option<Failure>)
      modifies this, pc
      ensures Outcome(State(), err) == Offer(old(State()), restart, env)
    {
      hide Launch;
      var iceRestart := restart;
      match negotiation {
        case AwaitingAnswer =>
          negotiation := RenegotiatePending;
          return None;
        case RenegotiatePending =>
          return None;
        case Idle =>
      }
      if restartAtNextOffer {
        restartAtNextOffer := false;
        iceRestart := true;
      }
      err := CreateAndSend(iceRestart, env);
    }

    /** offer once nothing is outstanding. */
    method CreateAndSend(iceRestart: bool, env: Env) returns (err: Option<Failure>)
      requires negotiation == Idle && !restartAtNextOffer
      modifies this, pc
      ensures Outcome(State(), err) == Offer(old(State()), iceRestart, env)
    {
      hide Launch;
      h := h.(created := h.created + [Created(iceRestart, pc.sig, pc.gathering)]);
      if !env.createOffer {
        return Some(CreateOfferFailed);
      }
      var ok := pc.SetLocalDescription(HaveLocalOffer, env);
      if !ok {
        return Some(SetLocalFailed);
      }
      Outstanding(iceRestart);
      if !env.onOffer {
        return Some(SendFailed);
      }
      err := None;
    }

    /** offer after SetLocalDescription. */
    method Outstanding(iceRestart: bool)
      modifies this`offerRestartsICE, this`localId, this`negotiation, this`gen, this`timer, this`h
      ensures State() == Launch(old(State()), iceRestart)
    {
      hide Next, ArmTimeout;
      offerRestartsICE := iceRestart;
      localId := Next(localId);
      negotiation := AwaitingAnswer;
      ghost var before := State();
      assert before == old(State()).(offerRestartsICE := iceRestart, localId := localId, negotiation := AwaitingAnswer);
      ArmNegotiationTimeout();
      h := h.(sent := h.sent + [Sent(localId, iceRestart)]);
    }

    /** restartICE. */
    method RestartIce(env: Env) returns (err: Option<Failure>)
      modifies this, pc
      ensures Outcome(State(), err) == RestartICE(old(State()), env)
    {
      match pc.gathering {
        case NotStarted =>
          return None;
        case InProgress =>
          restartAfterGathering := true;
          return None;
        case Complete =>
      }
      if negotiation == Idle {
        err := SendOffer(true, env);
        return;
      }
      if !pc.hasLocal {
        return Some(NoLocalDescription);
      }
      if !offerRestartsICE {
        negotiation := RenegotiatePending;
        restartAtNextOffer := true;
      }
      h := h.(resent := h.resent + [localId]);
      if !env.onOffer {
        return Some(SendFailed);
      }
      err := None;
    }

    /** onGatheringComplete. */
    method OnGatheringComplete(env: Env) returns (err: Option<Failure>)
      modifies this, pc
      ensures Outcome(State(), err) == GatheringComplete(old(State()), env)
    {
      if restartAfterGathering {
        restartAfterGathering := false;
        err := RestartIce(env);
        return;
      }
      if deferredOffer.Some? {
        var offer := deferredOffer.value;
        deferredOffer := None;
        err := OnOffer(offer, remoteId, env);
        return;
      }
      err := None;
    }

    /** acceptOffer. */
    method OnOffer(offer: Description, id: uint32, env: Env) returns (err: Option<Failure>)
      modifies this, pc
      ensures Outcome(State(), err) == AcceptOffer(old(State()), offer, id, env)
    {
      hide ApplyOffer;
      if offer.credential.None? {
        return Some(UnreadableCredential);
      }
      var restart := offerCredential.Some? && offer.credential != offerCredential;
      remoteId := id;
      if restart && pc.gathering == InProgress {
        deferredOffer := Some(offer);
        return None;
      }
      deferredOffer := None;
      err := ApplyRemoteOffer(offer, id, restart, env);
    }

    /** acceptOffer once the offer is not deferred. */
    method ApplyRemoteOffer(offer: Description, id: uint32, ghost restart: bool, env: Env)
        returns (err: Option<Failure>)
      modifies this, pc
      ensures Outcome(State(), err) == ApplyOffer(old(State()), offer, id, restart, env)
    {
      hide Answer, Describe;
      ghost var gathering := pc.gathering;
      var ok := SetRemoteDescription(offer, true, env);
      if !ok {
        return Some(SetRemoteFailed);
      }
      offerCredential := offer.credential;
      exchange := exchange + [OfferApplied(offer, id, restart, gathering)];
      err := SendAnswer(offer, id, env);
    }

    /** The answering half of acceptOffer. */
    method SendAnswer(offer: Description, id: uint32, env: Env) returns (err: Option<Failure>)
      modifies this`exchange, pc
      ensures Outcome(State(), err) == Answer(old(State()), offer, id, env)
    {
      if !env.createAnswer {
        return Some(CreateAnswerFailed);
      }
      var ok := pc.SetLocalDescription(Stable, env);
      if !ok {
        return Some(SetLocalFailed);
      }
      exchange := exchange + [AnswerSent(offer, id)];
      if !env.onAnswer {
        return Some(SendFailed);
      }
      err := None;
    }

    /** acceptAnswer. */
    method OnAnswer(answer: Description, id: uint32, env: Env) returns (err: Option<Failure>)
      modifies this, pc
      ensures Outcome(State(), err) == AcceptAnswer(old(State()), answer, id, env)
    {
      hide Classify, Settle, Describe;
      if Classify(id, remoteId, localId) != Accept {
        return None;
      }
      StopNegotiationTimeout();
      var stable := pc.sig == Stable;
      if !stable {
        var ok := SetRemoteDescription(answer, false, env);
        if !ok {
          return Some(SetRemoteFailed);
        }
        if id != NO_ID {
          remoteId := id;
        }
        h := h.(applied := h.applied + [id]);
      }
      err := Release(stable, env);
    }

    /** The end of acceptAnswer. */
    method Release(stable: bool, env: Env) returns (err: Option<Failure>)
      modifies this, pc
      ensures Outcome(State(), err) == Settle(old(State()), stable, env)
    {
      hide Offer;
      var renegotiate := negotiation == RenegotiatePending;
      negotiation := Idle;
      offerRestartsICE := false;
      if renegotiate || stable {
        err := SendOffer(false, env);
        return;
      }
      err := None;
    }

    /** matchesRemote. */
    predicate MatchesRemote(c: Candidate)
      reads this`remoteUfrag
    {
      c.ufrag.None? || c.ufrag.value == "" || remoteUfrag == "" || c.ufrag.value == remoteUfrag
    }

    /** setRemoteDescription, with its loop over the pending candidates. */
    method SetRemoteDescription(sd: Description, isOffer: bool, env: Env) returns (ok: bool)
      modifies pc`sig, pc`hasRemote, this`remoteUfrag, this`pendingCandidates, this`settled
      ensures ok == RemoteAccepted(old(State()), isOffer, env)
      ensures State() ==
              if ok then SetRemote(old(State()), sd, if isOffer then HaveRemoteOffer else Stable) else old(State())
    {
      hide SettleAll;
      var outcome := pc.SetRemoteDescription(isOffer, env);
      if outcome == Refused {
        return false;
      }
      remoteUfrag := "";
      if sd.credential.Some? {
        remoteUfrag := sd.credential.value.ufrag;
      }
      var pending := pendingCandidates;
      pendingCandidates := [];
      SettlePending(pending);
      ok := true;
    }

    /** The loop of setRemoteDescription over the candidates that were pending. */
    method SettlePending(pending: seq<Candidate>)
      modifies this`settled
      ensures settled == old(settled) + SettleAll(pending, remoteUfrag)
    {
      ghost var before := settled;
      for i := 0 to |pending|
        invariant settled == before + SettleAll(pending[..i], remoteUfrag)
      {
        assert SettleAll(pending[..i + 1], remoteUfrag)
            == SettleAll(pending[..i], remoteUfrag)
               + [Settled(pending[i], remoteUfrag, Matches(pending[i], remoteUfrag))];
        if !MatchesRemote(pending[i]) {
          settled := settled + [Settled(pending[i], remoteUfrag, false)];
          continue;
        }
        settled := settled + [Settled(pending[i], remoteUfrag, true)];
      }
      assert pending[..|pending|] == pending;
    }

    /** addRemoteCandidate. */
    method AddRemoteCandidate(c: Candidate)
      modifies this`pendingCandidates, this`received, this`settled
      ensures State() == old(State()).(cands := Trickle(old(State()).cands, c))
    {
      received := received + [c];
      if !pc.hasRemote || !MatchesRemote(c) {
        pendingCandidates := pendingCandidates + [c];
        return;
      }
      settled := settled + [Settled(c, remoteUfrag, true)];
    }

    method RunCompletion(env: Env) returns (err: Option<Failure>)
      modifies this, pc
      ensures Outcome(State(), err) == Step(old(State()), RunGatheringComplete, env)
    {
      hide GatheringComplete;
      completions := if completions > 0 then completions - 1 else 0;
      err := OnGatheringComplete(env);
    }

    method ReceiveOffer(offer: Description, id: uint32, env: Env) returns (err: Option<Failure>)
      modifies this, pc
      ensures Outcome(State(), err) == Step(old(State()), RemoteOffer(offer, id), env)
    {
      hide AcceptOffer;
      if offer.credential.Some? {
        exchange := exchange + [OfferReceived(offer, id)];
      }
      err := OnOffer(offer, id, env);
    }

    /** One event of the loop. */
    method Handle(a: Action, env: Env) returns (err: Option<Failure>)
      modifies this, pc
      ensures Outcome(State(), err) == Step(old(State()), a, env)
    {
      hide Offer, RestartICE, AcceptOffer, AcceptAnswer, GatheringComplete, Trickle, Timeout;
      err := None;
      match a {
        case Negotiate => err := SendOffer(false, env);
        case RequestRestart => err := RestartIce(env);
        case FinishGathering =>
          pc.gathering := Complete;
          completions := completions + 1;
        case RunGatheringComplete => err := RunCompletion(env);
        case RemoteOffer(offer, id) => err := ReceiveOffer(offer, id, env);
        case RemoteAnswer(answer, id) => err := OnAnswer(answer, id, env);
        case RemoteCandidate(c) => AddRemoteCandidate(c);
        case FireTimeout(armed) => err := OnNegotiationTimeout(armed, env);
      }
    }
  }

  /** A fresh transport fed any events ends where the state machine does. */
  method RunEvents(events: seq<Event>) returns (t: Transport)
    ensures t.State() == Run(INIT, events)
  {
    hide Step;
    var pc := new PeerConnection();
    t := new Transport(pc);
    for i := 0 to |events|
      invariant fresh(t) && fresh(pc) && t.pc == pc && t.State() == Run(INIT, events[..i])
    {
      assert events[..i + 1][..i] == events[..i];
      var err := t.Handle(events[i].a, events[i].env);
    }
    assert events[..|events|] == events;
  }
}
