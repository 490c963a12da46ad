/** Offer/answer negotiation of pc/pc.go as a state machine. Each event of the
    loop is one step; pion is the environment: a signalling state, a gathering
    state, and calls that may fail. */
module TransportSpec {
  import opened Wrappers
  import opened Bits
  import opened NegotiationId

  datatype Negotiation = Idle | AwaitingAnswer | RenegotiatePending
  datatype Signalling = Stable | HaveLocalOffer | HaveRemoteOffer
  datatype Gathering = NotStarted | InProgress | Complete

  /** A description's ICE ufrag and password. */
  datatype Credential = Credential(ufrag: string, pwd: string)

  /** A remote description; serial tells descriptions apart. No credential means
      that reading it from the SDP fails. */
  datatype Description = Description(serial: nat, credential: Option<Credential>)

  datatype Candidate = Candidate(serial: nat, ufrag: Option<string>)

  /** How SetRemoteDescription ends. An unsupported codec fails a track only: the
      description has been applied. */
  datatype SetRemoteOutcome = Applied | AppliedWithoutCodec | Refused

  /** What the environment does to the calls of one step. */
  datatype Env = Env(
    createOffer: bool, setLocal: bool, setRemote: SetRemoteOutcome, createAnswer: bool,
    onOffer: bool, onAnswer: bool,
    gathers: bool,     // a successful SetLocalDescription starts gathering
    connected: bool)   // the peer connection is connected

  datatype Failure =
    | CreateOfferFailed | SetLocalFailed | SetRemoteFailed | CreateAnswerFailed | SendFailed
    | NoLocalDescription | UnreadableCredential | TimedOut

  // ---- histories, for stating properties ----

  /** A CreateOffer call and the pion state it was made in. */
  datatype Created = Created(restart: bool, sig: Signalling, gathering: Gathering)

  datatype Sent = Sent(id: uint32, restart: bool)

  /** The answerer's traffic: readable offers received, offers applied, answers sent. */
  datatype Exchange =
    | OfferReceived(desc: Description, id: uint32)
    | OfferApplied(desc: Description, id: uint32, restart: bool, gathering: Gathering)
    | AnswerSent(desc: Description, id: uint32)

  /** A remote candidate handed to pion or dropped, and the ufrag then in force. */
  datatype Settled = Settled(c: Candidate, ufrag: string, applied: bool)

  /** The offerer's history: offers created and sent, answers applied, timer
      generations armed, ids of the offers sent again. */
  datatype History = History(
    created: seq<Created>, sent: seq<Sent>, applied: seq<uint32>, armed: set<nat>, resent: seq<uint32>)

  /** The remote description's ufrag, candidates waiting for a description, and
      what became of all candidates so far. */
  datatype Candidacy = Candidacy(
    hasRemote: bool, remoteUfrag: string, pending: seq<Candidate>,
    received: seq<Candidate>, settled: seq<Settled>)

  /** The answerer's last applied credential, deferred offer and traffic so far. */
  datatype Answering = Answering(credential: Option<Credential>, deferred: Option<Description>, exchange: seq<Exchange>)

  /** The fields the event loop owns, pion's state, and the histories. */
  datatype Transport = Transport(
    negotiation: Negotiation, localId: uint32, remoteId: uint32,
    restartAtNextOffer: bool, restartAfterGathering: bool, offerRestartsICE: bool,
    gen: nat, timer: Option<nat>,
    cands: Candidacy, ans: Answering,
    sig: Signalling, gathering: Gathering, hasLocal: bool,
    completions: nat,  // gathering-complete events that have not run yet
    h: History)

  const INIT := Transport(
    Idle, NO_ID, NO_ID, false, false, false, 0, None,
    Candidacy(false, "", [], [], []), Answering(None, None, []),
    Stable, NotStarted, false, 0, History([], [], [], {}, []))

  /** A handler's effect and the error it returns to the loop. */
  datatype Outcome = Outcome(t: Transport, err: Option<Failure>)

  function Good(t: Transport): Outcome { Outcome(t, None) }

  function Bad(t: Transport, e: Failure): Outcome { Outcome(t, Some(e)) }

  // ---- timers ----

  /** stopNegotiationTimeout. */
  function StopTimeout(t: Transport): Transport { t.(gen := t.gen + 1, timer := None) }

  /** armNegotiationTimeout. */
  function ArmTimeout(t: Transport): Transport {
    var s := StopTimeout(t);
    s.(timer := Some(s.gen), h := s.h.(armed := s.h.armed + {s.gen}))
  }

  /** The event a fired timer enqueues: stale generations are ignored. */
  function Timeout(t: Transport, gen: nat, env: Env): Outcome {
    if gen != t.gen then Good(t)
    else
      var s := t.(timer := None);
      if env.connected then Bad(s, TimedOut) else Good(s)
  }

  // ---- the offerer ----

  /** SetLocalDescription succeeding on an offer or an answer. */
  function LocalSet(t: Transport, sig: Signalling, env: Env): Transport {
    t.(sig := sig, hasLocal := true, gathering := if env.gathers then InProgress else t.gathering)
  }

  /** offer, once SetLocalDescription has succeeded: the offer is outstanding. */
  function Launch(t: Transport, restart: bool): Transport {
    var id := Next(t.localId);
    var t1 := ArmTimeout(t.(offerRestartsICE := restart, localId := id, negotiation := AwaitingAnswer));
    t1.(h := t1.h.(sent := t1.h.sent + [Sent(id, restart)]))
  }

  function NoteCreated(t: Transport, restart: bool): Transport {
    t.(restartAtNextOffer := false, h := t.h.(created := t.h.created + [Created(restart, t.sig, t.gathering)]))
  }

  /** offer. */
  function Offer(t: Transport, iceRestart: bool, env: Env): Outcome {
    match t.negotiation
    case AwaitingAnswer => Good(t.(negotiation := RenegotiatePending))
    case RenegotiatePending => Good(t)
    case Idle =>
      var restart := iceRestart || t.restartAtNextOffer;
      var t1 := NoteCreated(t, restart);
      if !env.createOffer then Bad(t1, CreateOfferFailed)
      else if !env.setLocal then Bad(t1, SetLocalFailed)
      else
        var t2 := Launch(LocalSet(t1, HaveLocalOffer, env), restart);
        if env.onOffer then Good(t2) else Bad(t2, SendFailed)
  }

  /** restartICE. */
  function RestartICE(t: Transport, env: Env): Outcome {
    match t.gathering
    case NotStarted => Good(t)
    case InProgress => Good(t.(restartAfterGathering := true))
    case Complete =>
      if t.negotiation == Idle then Offer(t, true, env)
      else if !t.hasLocal then Bad(t, NoLocalDescription)
      else
        var t1 := if t.offerRestartsICE then t else t.(negotiation := RenegotiatePending, restartAtNextOffer := true);
        var t2 := t1.(h := t1.h.(resent := t1.h.resent + [t1.localId]));
        if env.onOffer then Good(t2) else Bad(t2, SendFailed)
  }

  /** An answer that pion has applied. */
  function Answered(t: Transport, answer: Description, id: uint32): Transport {
    var t1 := SetRemote(t, answer, Stable);
    t1.(remoteId := if id != NO_ID then id else t1.remoteId, h := t1.h.(applied := t1.h.applied + [id]))
  }

  /** The end of acceptAnswer: idle again, and the next offer if one is due. */
  function Settle(t: Transport, stable: bool, env: Env): Outcome {
    var t1 := t.(negotiation := Idle, offerRestartsICE := false);
    if t.negotiation == RenegotiatePending || stable then Offer(t1, false, env) else Good(t1)
  }

  /** acceptAnswer. */
  function AcceptAnswer(t: Transport, answer: Description, id: uint32, env: Env): Outcome {
    if Classify(id, t.remoteId, t.localId) != Accept then Good(t)
    else
      var t1 := StopTimeout(t);
      if t1.sig == Stable then Settle(t1, true, env)
      else if !RemoteAccepted(t1, false, env) then Bad(t1, SetRemoteFailed)
      else Settle(Answered(t1, answer, id), false, env)
  }

  // ---- remote descriptions and candidates ----

  /** Whether SetRemoteDescription applies the description: pion refuses an answer
      without an outstanding offer and an offer over one. */
  predicate RemoteAccepted(t: Transport, isOffer: bool, env: Env) {
    && env.setRemote != Refused
    && (if isOffer then t.sig != HaveLocalOffer else t.sig == HaveLocalOffer)
  }

  function Key(c: Candidate): string { if c.ufrag.Some? then c.ufrag.value else "" }

  /** matchesRemote. */
  predicate Matches(c: Candidate, remoteUfrag: string) {
    Key(c) == "" || remoteUfrag == "" || Key(c) == remoteUfrag
  }

  /** The pending candidates, applied or dropped in order. */
  function SettleAll(cs: seq<Candidate>, ufrag: string): seq<Settled> {
    seq(|cs|, i requires 0 <= i < |cs| => Settled(cs[i], ufrag, Matches(cs[i], ufrag)))
  }

  /** setRemoteDescription's effect on the candidates once pion has applied it. */
  function Describe(cs: Candidacy, sd: Description): Candidacy {
    var ufrag := if sd.credential.Some? then sd.credential.value.ufrag else "";
    cs.(hasRemote := true, remoteUfrag := ufrag, pending := [], settled := cs.settled + SettleAll(cs.pending, ufrag))
  }

  function SetRemote(t: Transport, sd: Description, sig: Signalling): Transport {
    t.(sig := sig, cands := Describe(t.cands, sd))
  }

  /** addRemoteCandidate. */
  function Trickle(cs: Candidacy, c: Candidate): Candidacy {
    var cs1 := cs.(received := cs.received + [c]);
    if !cs.hasRemote || !Matches(c, cs.remoteUfrag) then cs1.(pending := cs1.pending + [c])
    else cs1.(settled := cs1.settled + [Settled(c, cs1.remoteUfrag, true)])
  }

  // ---- the answerer ----

  /** Whether an offer changes the ICE credentials of the last applied one. */
  predicate Restarts(ans: Answering, offer: Description)
    requires offer.credential.Some?
  {
    ans.credential.Some? && ans.credential != offer.credential
  }

  function Noted(ans: Answering, x: Exchange): Answering { ans.(exchange := ans.exchange + [x]) }

  /** acceptOffer. */
  function AcceptOffer(t: Transport, offer: Description, id: uint32, env: Env): Outcome {
    if offer.credential.None? then Bad(t, UnreadableCredential)
    else
      var restart := Restarts(t.ans, offer);
      if restart && t.gathering == InProgress then
        Good(t.(remoteId := id, ans := t.ans.(deferred := Some(offer))))
      else ApplyOffer(t.(remoteId := id, ans := t.ans.(deferred := None)), offer, id, restart, env)
  }

  /** acceptOffer once the offer is not deferred. */
  function ApplyOffer(t: Transport, offer: Description, id: uint32, restart: bool, env: Env): Outcome {
    if !RemoteAccepted(t, true, env) then Bad(t, SetRemoteFailed)
    else
      var ans := Noted(t.ans, OfferApplied(offer, id, restart, t.gathering));
      Answer(SetRemote(t, offer, HaveRemoteOffer).(ans := ans.(credential := offer.credential)), offer, id, env)
  }

  /** The answering half of acceptOffer. */
  function Answer(t: Transport, offer: Description, id: uint32, env: Env): Outcome {
    if !env.createAnswer then Bad(t, CreateAnswerFailed)
    else if !env.setLocal then Bad(t, SetLocalFailed)
    else
      var t1 := LocalSet(t, Stable, env).(ans := Noted(t.ans, AnswerSent(offer, id)));
      if env.onAnswer then Good(t1) else Bad(t1, SendFailed)
  }

  /** onGatheringComplete. */
  function GatheringComplete(t: Transport, env: Env): Outcome {
    if t.restartAfterGathering then RestartICE(t.(restartAfterGathering := false), env)
    else if t.ans.deferred.Some? then
      AcceptOffer(t.(ans := t.ans.(deferred := None)), t.ans.deferred.value, t.remoteId, env)
    else Good(t)
  }

  // ---- runs ----

  datatype Action =
    | Negotiate                                     // Negotiate: a "send offer" event
    | RequestRestart                                // ICERestart
    | FinishGathering                               // pion completes gathering and queues the event
    | RunGatheringComplete                          // that event runs
    | RemoteOffer(offer: Description, id: uint32)
    | RemoteAnswer(answer: Description, id: uint32)
    | RemoteCandidate(c: Candidate)
    | FireTimeout(gen: nat)

  /** Events that the environment can produce in this state. */
  predicate Enabled(t: Transport, a: Action) {
    match a
    case FinishGathering => t.gathering == InProgress
    case RunGatheringComplete => t.completions > 0
    case FireTimeout(gen) => gen in t.h.armed
    case _ => true
  }

  function Step(t: Transport, a: Action, env: Env): Outcome {
    match a
    case Negotiate => Offer(t, false, env)
    case RequestRestart => RestartICE(t, env)
    case FinishGathering => Good(t.(gathering := Complete, completions := t.completions + 1))
    case RunGatheringComplete =>
      GatheringComplete(t.(completions := if t.completions > 0 then t.completions - 1 else 0), env)
    case RemoteOffer(offer, id) =>
      var t1 := if offer.credential.Some? then t.(ans := Noted(t.ans, OfferReceived(offer, id))) else t;
      AcceptOffer(t1, offer, id, env)
    case RemoteAnswer(answer, id) => AcceptAnswer(t, answer, id, env)
    case RemoteCandidate(c) => Good(t.(cands := Trickle(t.cands, c)))
    case FireTimeout(gen) => Timeout(t, gen, env)
  }

  datatype Event = Event(a: Action, env: Env)

  /** The state after a run of events from t. */
  function Run(t: Transport, events: seq<Event>): Transport
    decreases |events|
  {
    if events == [] then t
    else Step(Run(t, events[..|events| - 1]), events[|events| - 1].a, events[|events| - 1].env).t
  }

  /** Every event of the run can happen where it does. */
  predicate Possible(t: Transport, events: seq<Event>)
    decreases |events|
  {
    events == [] ||
    (Possible(t, events[..|events| - 1]) && Enabled(Run(t, events[..|events| - 1]), events[|events| - 1].a))
  }
}
