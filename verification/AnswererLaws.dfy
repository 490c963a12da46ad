/** The answering side of a transport, and the remote candidates of either side. */
module AnswererLaws {
  import opened Bits
  import opened NegotiationId
  import opened Wrappers
  import opened TransportSpec

  // ---- the answerer ----

  /** An event of a transport that answers and never offers. */
  predicate AnswererEvent(e: Event) {
    match e.a
    case Negotiate => false
    case RequestRestart => false
    case RemoteAnswer(_, id) => id != NO_ID
    case _ => true
  }

  /** Where the exchange stands: nothing to answer, an offer received, or that
      offer applied and its answer due. */
  datatype Phase = Nothing | Open(desc: Description, id: uint32) | Due(desc: Description, id: uint32)

  function PhaseOf(ex: seq<Exchange>): Phase {
    if ex == [] then Nothing
    else
      match ex[|ex| - 1]
      case OfferReceived(d, id) => Open(d, id)
      case OfferApplied(d, id, _, _) => Due(d, id)
      case AnswerSent(_, _) => Nothing
  }

  /** The credential of the offer applied last. */
  function LastCredential(ex: seq<Exchange>): Option<Credential> {
    if ex == [] then None
    else if ex[|ex| - 1].OfferApplied? then ex[|ex| - 1].desc.credential
    else LastCredential(ex[..|ex| - 1])
  }

  /** An offer that changes the credential of the one applied before it. */
  predicate Renews(ex: seq<Exchange>, d: Description) {
    LastCredential(ex).Some? && LastCredential(ex) != d.credential
  }

  /** What may follow an exchange. An offer always may. Only the latest offer received
      is applied, under the id it came with, and not while gathering if it changes the
      ICE credentials. Only an applied offer is answered, with its own id, and once. */
  predicate Follows(ex: seq<Exchange>, x: Exchange) {
    match x
    case OfferReceived(_, _) => true
    case OfferApplied(d, id, restart, gathering) =>
      PhaseOf(ex) == Open(d, id) && restart == Renews(ex, d) && (Renews(ex, d) ==> gathering != InProgress)
    case AnswerSent(d, id) => PhaseOf(ex) == Due(d, id)
  }

  ghost predicate Orderly(ex: seq<Exchange>) {
    forall i :: 0 <= i < |ex| ==> Follows(ex[..i], ex[i])
  }

  lemma CredentialAppend(ex: seq<Exchange>, x: Exchange)
    ensures LastCredential(ex + [x]) == if x.OfferApplied? then x.desc.credential else LastCredential(ex)
  {
    assert (ex + [x])[..|ex|] == ex;
  }

  lemma OrderlyAppend(ex: seq<Exchange>, x: Exchange)
    requires Orderly(ex) && Follows(ex, x)
    ensures Orderly(ex + [x])
  {
    hide Follows;
    var longer := ex + [x];
    forall i | 0 <= i < |longer| ensures Follows(longer[..i], longer[i]) {
      assert longer[..i] == ex[..i];
      if i == |ex| { assert ex[..i] == ex; }
    }
  }

  /** A deferred offer is the latest one received, remoteId is still its id, and the
      credential kept is that of the offer applied last. */
  ghost predicate DeferralInv(ans: Answering, remoteId: uint32) {
    && Orderly(ans.exchange) && ans.credential == LastCredential(ans.exchange)
    && (ans.deferred.Some? ==>
          ans.deferred.value.credential.Some? && PhaseOf(ans.exchange) == Open(ans.deferred.value, remoteId))
  }

  /** Nothing of the offering side stirs. */
  predicate Passive(t: Transport) {
    && t.negotiation == Idle && t.localId == NO_ID && !t.restartAfterGathering && !t.restartAtNextOffer
    && t.sig != HaveLocalOffer
  }

  ghost predicate AnswererInv(t: Transport) { Passive(t) && DeferralInv(t.ans, t.remoteId) }

  /** Applying and answering the latest offer received, or deferring it. */
  lemma AcceptOfferKeeps(t: Transport, offer: Description, id: uint32, env: Env)
    requires Passive(t) && Orderly(t.ans.exchange) && t.ans.credential == LastCredential(t.ans.exchange)
    requires offer.credential.Some? && PhaseOf(t.ans.exchange) == Open(offer, id)
    ensures AnswererInv(AcceptOffer(t, offer, id, env).t)
  {
    hide Orderly, Describe, LastCredential;
    var ex := t.ans.exchange;
    var applied := OfferApplied(offer, id, Restarts(t.ans, offer), t.gathering);
    if !(Restarts(t.ans, offer) && t.gathering == InProgress) {
      OrderlyAppend(ex, applied);
      OrderlyAppend(ex + [applied], AnswerSent(offer, id));
      CredentialAppend(ex, applied);
      CredentialAppend(ex + [applied], AnswerSent(offer, id));
    }
  }

  lemma NeverAccepts(t: Transport, id: uint32)
    requires t.localId == NO_ID && id != NO_ID
    ensures Classify(id, t.remoteId, t.localId) != Accept
  {
  }

  lemma Unreadable(t: Transport, offer: Description, id: uint32, env: Env)
    requires offer.credential.None?
    ensures AcceptOffer(t, offer, id, env).t == t
  {
  }

  lemma ReceiveKeeps(t: Transport, offer: Description, id: uint32, env: Env)
    requires AnswererInv(t) && offer.credential.Some?
    ensures AnswererInv(AcceptOffer(t.(ans := Noted(t.ans, OfferReceived(offer, id))), offer, id, env).t)
  {
    hide AcceptOffer, Orderly, LastCredential;
    OrderlyAppend(t.ans.exchange, OfferReceived(offer, id));
    CredentialAppend(t.ans.exchange, OfferReceived(offer, id));
    AcceptOfferKeeps(t.(ans := Noted(t.ans, OfferReceived(offer, id))), offer, id, env);
  }

  lemma AnswererStep(t: Transport, e: Event)
    requires AnswererInv(t) && AnswererEvent(e)
    ensures AnswererInv(Step(t, e.a, e.env).t)
  {
    hide AcceptOffer, DeferralInv, Classify, Trickle;
    match e.a
    case RemoteOffer(offer, id) =>
      if offer.credential.Some? {
        ReceiveKeeps(t, offer, id, e.env);
      } else {
        Unreadable(t, offer, id, e.env);
      }
    case RunGatheringComplete => CompleteKeeps(t, e.env);
    case RemoteAnswer(_, id) => NeverAccepts(t, id);
    case _ =>
  }

  lemma CompleteKeeps(t: Transport, env: Env)
    requires AnswererInv(t)
    ensures AnswererInv(Step(t, RunGatheringComplete, env).t)
  {
    hide AcceptOffer;
    if t.ans.deferred.Some? {
      var t1 := t.(completions := if t.completions > 0 then t.completions - 1 else 0, ans := t.ans.(deferred := None));
      AcceptOfferKeeps(t1, t.ans.deferred.value, t.remoteId, env);
    }
  }

  /** In every run of an answerer, with any call failing anywhere. */
  lemma {:induction false} AnswererAlways(events: seq<Event>)
    requires forall i :: 0 <= i < |events| ==> AnswererEvent(events[i])
    ensures AnswererInv(Run(INIT, events))
    decreases |events|
  {
    if events != [] {
      hide Step, AnswererInv;
      AnswererAlways(events[..|events| - 1]);
      AnswererStep(Run(INIT, events[..|events| - 1]), events[|events| - 1]);
    }
  }

  /** The latest offer received before position k, with its id. */
  ghost predicate LatestOffer(ex: seq<Exchange>, k: nat, j: nat) {
    j < k <= |ex| && ex[j].OfferReceived? && forall i :: j < i < k ==> !ex[i].OfferReceived?
  }

  /** Every answer sent is to the latest offer received, under that offer's id: an
      offer superseded while deferred is never answered, and no offer is answered
      twice. */
  lemma AnswersLatestOffer(ex: seq<Exchange>, k: nat)
    requires Orderly(ex) && k < |ex| && ex[k].AnswerSent?
    ensures k >= 2 && LatestOffer(ex, k, k - 2)
    ensures ex[k - 2] == OfferReceived(ex[k].desc, ex[k].id) && ex[k - 1].OfferApplied?
  {
    hide LastCredential;
    assert Follows(ex[..k], ex[k]);
    assert ex[..k][|ex[..k]| - 1] == ex[k - 1];
    assert Follows(ex[..k - 1], ex[k - 1]);
    assert ex[..k - 1][|ex[..k - 1]| - 1] == ex[k - 2];
  }

  /** In every run, an offer that changes the credential of the offer applied before it
      is never applied while gathering. */
  lemma RenewalWaits(events: seq<Event>, j: nat, k: nat)
    requires forall i :: 0 <= i < |events| ==> AnswererEvent(events[i])
    requires j < k < |Run(INIT, events).ans.exchange|
    ensures var ex := Run(INIT, events).ans.exchange;
      && ex[j].OfferApplied? && ex[k].OfferApplied? && (forall i :: j < i < k ==> !ex[i].OfferApplied?)
      && ex[j].desc.credential.Some? && ex[k].desc.credential != ex[j].desc.credential
      ==> ex[k].gathering != InProgress
  {
    hide Run, LastCredential;
    AnswererAlways(events);
    var ex := Run(INIT, events).ans.exchange;
    if ex[j].OfferApplied? && ex[k].OfferApplied? && forall i :: j < i < k ==> !ex[i].OfferApplied? {
      LastCredentialAt(ex, j, k);
      assert Follows(ex[..k], ex[k]);
    }
  }

  lemma {:induction false} LastCredentialAt(ex: seq<Exchange>, j: nat, k: nat)
    requires j < k <= |ex| && ex[j].OfferApplied? && forall i :: j < i < k ==> !ex[i].OfferApplied?
    ensures LastCredential(ex[..k]) == ex[j].desc.credential
    decreases k
  {
    assert ex[..k][..k - 1] == ex[..k - 1];
    if j < k - 1 { LastCredentialAt(ex, j, k - 1); }
  }

  // ---- remote candidates ----

  function Candidates(settled: seq<Settled>): (cs: seq<Candidate>)
    ensures |cs| == |settled|
  {
    seq(|settled|, i requires 0 <= i < |settled| => settled[i].c)
  }

  /** The candidates that name ufrag u, in order; "" collects those naming none. */
  function By(u: string, cs: seq<Candidate>): seq<Candidate> {
    if cs == [] then []
    else By(u, cs[..|cs| - 1]) + (if Key(cs[|cs| - 1]) == u then [cs[|cs| - 1]] else [])
  }

  lemma {:induction false} ByConcat(u: string, a: seq<Candidate>, b: seq<Candidate>)
    ensures By(u, a + b) == By(u, a) + By(u, b)
    decreases |b|
  {
    if b == [] {
      assert a + b == a;
    } else {
      var init := b[..|b| - 1];
      assert (a + b)[..|a + b| - 1] == a + init;
      ByConcat(u, a, init);
    }
  }

  lemma {:induction false} ByNone(u: string, cs: seq<Candidate>)
    requires forall i :: 0 <= i < |cs| ==> Key(cs[i]) != u
    ensures By(u, cs) == []
    decreases |cs|
  {
    if cs != [] {
      ByNone(u, cs[..|cs| - 1]);
    }
  }

  lemma ByOne(u: string, c: Candidate)
    ensures By(u, [c]) == if Key(c) == u then [c] else []
  {
    assert [c][..0] == [];
  }

  /** For every ufrag, the candidates naming it leave in the order they arrived. */
  ghost predicate InOrder(cs: Candidacy) {
    forall u {:trigger By(u, cs.received)} :: By(u, cs.received) == By(u, Candidates(cs.settled)) + By(u, cs.pending)
  }

  /** Every received candidate is exactly one of applied, dropped or pending. */
  ghost predicate Conserved(cs: Candidacy) {
    multiset(cs.received) == multiset(Candidates(cs.settled)) + multiset(cs.pending)
  }

  /** A candidate that names no ufrag belongs to every description, and every candidate
      to one that has none. */
  predicate Belongs(c: Candidate, ufrag: string) {
    c.ufrag == None || c.ufrag == Some("") || ufrag == "" || c.ufrag == Some(ufrag)
  }

  /** With a description set, everything pending belongs to another. */
  ghost predicate PendingForeign(cs: Candidacy) {
    cs.hasRemote ==> forall i :: 0 <= i < |cs.pending| ==> !Belongs(cs.pending[i], cs.remoteUfrag)
  }

  /** A candidate is applied exactly when it belongs to the description in force. */
  ghost predicate AppliedMatching(cs: Candidacy) {
    forall i :: 0 <= i < |cs.settled| ==> cs.settled[i].applied == Belongs(cs.settled[i].c, cs.settled[i].ufrag)
  }

  ghost predicate CandidateInv(cs: Candidacy) {
    InOrder(cs) && Conserved(cs) && PendingForeign(cs) && AppliedMatching(cs)
  }

  lemma CandidatesConcat(a: seq<Settled>, b: seq<Settled>)
    ensures Candidates(a + b) == Candidates(a) + Candidates(b)
  {
  }

  lemma TrickleInOrder(cs: Candidacy, c: Candidate)
    requires InOrder(cs) && PendingForeign(cs)
    ensures InOrder(Trickle(cs, c))
  {
    hide By, Candidates;
    var cs', now := Trickle(cs, c), Settled(c, cs.remoteUfrag, true);
    CandidatesConcat(cs.settled, [now]);
    OneCandidate(now);
    forall u ensures By(u, cs'.received) == By(u, Candidates(cs'.settled)) + By(u, cs'.pending) {
      assert By(u, cs.received) == By(u, Candidates(cs.settled)) + By(u, cs.pending);
      ByConcat(u, cs.received, [c]);
      ByConcat(u, cs.pending, [c]);
      ByConcat(u, Candidates(cs.settled), [c]);
      ByOne(u, c);
      if cs.hasRemote && Matches(c, cs.remoteUfrag) && Key(c) == u {
        ByNone(u, cs.pending);
      }
    }
  }

  lemma OneCandidate(s: Settled)
    ensures Candidates([s]) == [s.c]
  {
  }

  lemma TrickleKeeps(cs: Candidacy, c: Candidate)
    requires CandidateInv(cs)
    ensures CandidateInv(Trickle(cs, c))
  {
    hide InOrder, Candidates;
    TrickleInOrder(cs, c);
    var cs', now := Trickle(cs, c), Settled(c, cs.remoteUfrag, true);
    CandidatesConcat(cs.settled, [now]);
    OneCandidate(now);
    assert multiset(cs'.received) == multiset(cs.received) + multiset{c};
  }

  lemma DescribeKeeps(cs: Candidacy, sd: Description)
    requires CandidateInv(cs)
    ensures CandidateInv(Describe(cs, sd))
  {
    hide By;
    var cs' := Describe(cs, sd);
    var more := SettleAll(cs.pending, cs'.remoteUfrag);
    CandidatesConcat(cs.settled, more);
    assert Candidates(more) == cs.pending;
    forall u ensures By(u, cs'.received) == By(u, Candidates(cs'.settled)) + By(u, cs'.pending) {
      assert By(u, cs.received) == By(u, Candidates(cs.settled)) + By(u, cs.pending);
      ByConcat(u, Candidates(cs.settled), cs.pending);
      ByNone(u, []);
    }
  }

  lemma OfferSame(t: Transport, iceRestart: bool, env: Env)
    ensures Offer(t, iceRestart, env).t.cands == t.cands
  {
    hide Next, ArmTimeout;
    assert forall s: Transport {:trigger ArmTimeout(s)} :: ArmTimeout(s).cands == s.cands by { ArmSame(); }
  }

  lemma ArmSame()
    ensures forall s: Transport {:trigger ArmTimeout(s)} :: ArmTimeout(s).cands == s.cands
  {
  }

  lemma RestartSame(t: Transport, env: Env)
    ensures RestartICE(t, env).t.cands == t.cands
  {
    hide Offer;
    OfferSame(t, true, env);
  }

  /** The remote description that an event applies: an answer that is accepted, or an
      offer that need not wait, if pion agrees. */
  function Describes(t: Transport, e: Event): Option<Description> {
    match e.a
    case RemoteOffer(offer, _) =>
      if offer.credential.Some? && !(Restarts(t.ans, offer) && t.gathering == InProgress)
         && RemoteAccepted(t, true, e.env)
      then Some(offer) else None
    case RunGatheringComplete =>
      if !t.restartAfterGathering && t.ans.deferred.Some? && t.ans.deferred.value.credential.Some?
         && !(Restarts(t.ans, t.ans.deferred.value) && t.gathering == InProgress) && RemoteAccepted(t, true, e.env)
      then t.ans.deferred else None
    case RemoteAnswer(answer, id) =>
      if Classify(id, t.remoteId, t.localId) == Accept && t.sig != Stable && RemoteAccepted(t, false, e.env)
      then Some(answer) else None
    case _ => None
  }

  function Described(cs: Candidacy, sd: Option<Description>): Candidacy {
    if sd.Some? then Describe(cs, sd.value) else cs
  }

  lemma AcceptAnswerCandidates(t: Transport, answer: Description, id: uint32, env: Env)
    ensures AcceptAnswer(t, answer, id, env).t.cands
         == Described(t.cands, Describes(t, Event(RemoteAnswer(answer, id), env)))
  {
    hide Offer, Classify, Describe;
    var t1 := StopTimeout(t);
    OfferSame(t1.(negotiation := Idle, offerRestartsICE := false), false, env);
    OfferSame(Answered(t1, answer, id).(negotiation := Idle, offerRestartsICE := false), false, env);
  }

  lemma AcceptOfferCandidates(t: Transport, offer: Description, id: uint32, env: Env)
    ensures AcceptOffer(t, offer, id, env).t.cands
         == Described(t.cands, Describes(t, Event(RemoteOffer(offer, id), env)))
  {
    hide Describe, Noted;
  }

  /** What an event does to the candidates. */
  lemma CandidacyStep(t: Transport, e: Event)
    ensures Step(t, e.a, e.env).t.cands
         == if e.a.RemoteCandidate? then Trickle(t.cands, e.a.c) else Described(t.cands, Describes(t, e))
  {
    hide Offer, AcceptOffer, AcceptAnswer, RestartICE, Trickle, Describe, Classify;
    match e.a
    case Negotiate => OfferSame(t, false, e.env);
    case RequestRestart => RestartSame(t, e.env);
    case RunGatheringComplete =>
      var t1 := t.(completions := if t.completions > 0 then t.completions - 1 else 0);
      if t.restartAfterGathering {
        RestartSame(t1.(restartAfterGathering := false), e.env);
      } else if t.ans.deferred.Some? {
        AcceptOfferCandidates(t1.(ans := t.ans.(deferred := None)), t.ans.deferred.value, t.remoteId, e.env);
      }
    case RemoteOffer(offer, id) =>
      var t1 := if offer.credential.Some? then t.(ans := Noted(t.ans, OfferReceived(offer, id))) else t;
      AcceptOfferCandidates(t1, offer, id, e.env);
    case RemoteAnswer(answer, id) => AcceptAnswerCandidates(t, answer, id, e.env);
    case _ =>
  }

  lemma CandidateStep(t: Transport, e: Event)
    requires CandidateInv(t.cands)
    ensures CandidateInv(Step(t, e.a, e.env).t.cands)
  {
    hide CandidateInv, Step, Trickle, Describe;
    CandidacyStep(t, e);
    match e.a
    case RemoteCandidate(c) => TrickleKeeps(t.cands, c);
    case _ =>
      if Describes(t, e).Some? { DescribeKeeps(t.cands, Describes(t, e).value); }
  }

  /** In every run of either side: candidates are conserved, those naming the same
      ufrag are settled in arrival order, one is applied exactly when it belongs to
      the description in force, and with a description set everything pending
      belongs to another. */
  lemma {:induction false} CandidatesAlways(events: seq<Event>)
    ensures CandidateInv(Run(INIT, events).cands)
    decreases |events|
  {
    if events != [] {
      hide Step, CandidateInv;
      CandidatesAlways(events[..|events| - 1]);
      CandidateStep(Run(INIT, events[..|events| - 1]), events[|events| - 1]);
    }
  }

  /** The remote description applied last in a run. */
  function InForce(events: seq<Event>): Option<Description>
    decreases |events|
  {
    if events == [] then None
    else
      var init, e := events[..|events| - 1], events[|events| - 1];
      if Describes(Run(INIT, init), e).Some? then Describes(Run(INIT, init), e) else InForce(init)
  }

  function UfragOf(sd: Option<Description>): string {
    if sd.Some? && sd.value.credential.Some? then sd.value.credential.value.ufrag else ""
  }

  /** In every run of either side the ufrag that candidates are compared with is that of
      the remote description applied last. */
  lemma {:induction false} UfragInForce(events: seq<Event>)
    ensures var cs := Run(INIT, events).cands;
      cs.remoteUfrag == UfragOf(InForce(events)) && (cs.hasRemote <==> InForce(events).Some?)
    decreases |events|
  {
    if events != [] {
      var init, e := events[..|events| - 1], events[|events| - 1];
      UfragInForce(init);
      CandidacyStep(Run(INIT, init), e);
      hide Step, Describes, SettleAll;
    }
  }

  /** And whatever an event settles is settled by the ufrag then in force: a candidate that
      arrives and belongs to it, or everything pending when a description is applied. */
  lemma SettledByForce(events: seq<Event>, e: Event)
    ensures var now := Step(Run(INIT, events), e.a, e.env).t.cands; var cs := Run(INIT, events).cands;
      && |cs.settled| <= |now.settled| && now.settled[..|cs.settled|] == cs.settled
      && (forall i :: |cs.settled| <= i < |now.settled| ==>
            now.settled[i].ufrag == UfragOf(InForce(events + [e])))
      && (InForce(events + [e]).Some? && e.a.RemoteCandidate? && Belongs(e.a.c, now.remoteUfrag) ==>
            |now.settled| == |cs.settled| + 1)
      && (Describes(Run(INIT, events), e).Some? ==> now.pending == [])
  {
    assert (events + [e])[..|events|] == events;
    UfragInForce(events + [e]);
    CandidacyStep(Run(INIT, events), e);
    UfragInForce(events);
    hide Step, Describes, Run;
  }
}
