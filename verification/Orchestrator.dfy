/** The orchestrator's paused applications, its resume and cancel calls, and the disbursement agent they drive. */
module Orchestrator {
  import opened Wrappers
  import opened Emi
  import opened Workflow
  import opened Protocol
  import opened MoneySafety

  datatype Phase = AwaitingApprovalConfirmation | AwaitingOfferSelection

  /** What the pipeline saves when it pauses: the terms the agent will be sent, the fee that is kept back, and the
      offers, when what was saved can be read as a list of offers at all. */
  datatype Paused = Paused(phase: Phase, terms: Request, fee: int, offers: Option<seq<Offer>>)

  type Store = map<string, Paused>

  class PipelineStateStore {
    var store: Store

    constructor ()
      ensures store == map[]
    {
      store := map[];
    }

    method SaveState(applicationId: string, state: Paused)
      modifies this
      ensures store == old(store)[applicationId := state]
    {
      store := store[applicationId := state];
    }

    method GetState(applicationId: string) returns (state: Option<Paused>)
      ensures state == if applicationId in store then Some(store[applicationId]) else None
    {
      if applicationId in store {
        return Some(store[applicationId]);
      }
      return None;
    }

    method ClearState(applicationId: string)
      modifies this
      ensures store == old(store) - {applicationId}
    {
      store := store - {applicationId};
    }
  }

  datatype Kind = ConfirmApproval | SelectOffer(offerId: string)

  function FindOffer(offers: seq<Offer>, offerId: string): Option<Offer> {
    if offers == [] then None
    else if offers[0].offerId == offerId then Some(offers[0])
    else FindOffer(offers[1..], offerId)
  }

  /** The request a resume sends, if the paused state is in the phase it asks for. */
  function ResumeRequest(p: Paused, kind: Kind): Option<Request> {
    match kind
    case ConfirmApproval => if p.phase == AwaitingApprovalConfirmation then Some(p.terms) else None
    case SelectOffer(offerId) =>
      if p.phase != AwaitingOfferSelection || p.offers.None? then None
      else
        match FindOffer(p.offers.value, offerId)
        case None => None
        case Some(offer) =>
          Some(p.terms.(approvedAmount := offer.principal, tenure := offer.tenure, rate := offer.annualRate,
                        disbursementAmount := offer.principal - p.fee))
  }

  /** The bodies a 2xx response can carry: a receipt, or the notice that a duplicate is still being processed (202). */
  datatype Body = ReceiptBody(receipt: Option<Receipt>) | InProgressBody

  datatype Answer = AnsweredDisbursed(body: Body) | AnsweredError

  datatype ResumePc = Looking | Waiting(attempt: nat) | Clearing(body: Body) | Finished(answer: Answer)

  datatype Resume = Resume(applicationId: string, kind: Kind, pc: ResumePc)

  /** `saved`, `origin` and `sent` are bookkeeping for the proofs: all states ever saved, for whom each attempt was
      made, and the attempt each resume has made. */
  datatype World = World(
    store: Store, resumes: map<nat, Resume>, agent: System, saved: set<Paused>, origin: map<nat, string>,
    sent: map<nat, nat>)

  const NEW_WORLD := World(map[], map[], START, {}, map[], map[])

  datatype Move =
    | Save(applicationId: string, state: Paused)
    | Cancel(applicationId: string)
    | Begin(id: nat, applicationId: string, kind: Kind)
    | Look(id: nat, attempt: nat)
    | AgentMoves(action: Action)
    | Receive(id: nat)
    | GiveUp(id: nat)
    | Clear(id: nat)

  function At(w: World, id: nat, pc: ResumePc): World
    requires id in w.resumes
  {
    w.(resumes := w.resumes[id := w.resumes[id].(pc := pc)])
  }

  /** `raise_for_status` lets every 2xx through, the 202 included. */
  function AfterResponse(outcome: Outcome): ResumePc {
    match outcome
    case Replied(receipt) => Clearing(ReceiptBody(receipt))
    case Refused(InProgressError) => Clearing(InProgressBody)
    case Refused(_) => Finished(AnsweredError)
  }

  function Next(w: World, e: Move, h: Request -> string): World {
    match e
    case Save(app, state) => w.(store := w.store[app := state], saved := w.saved + {state})
    case Cancel(app) => w.(store := w.store - {app})
    case Begin(id, app, kind) =>
      if id in w.resumes then w else w.(resumes := w.resumes[id := Resume(app, kind, Looking)])
    case Look(id, attempt) =>
      if id !in w.resumes || w.resumes[id].pc != Looking || attempt in w.agent.attempts then w
      else
        var app := w.resumes[id].applicationId;
        if app !in w.store || ResumeRequest(w.store[app], w.resumes[id].kind).None?
        then At(w, id, Finished(AnsweredError))
        else
          var r := ResumeRequest(w.store[app], w.resumes[id].kind).value;
          At(w, id, Waiting(attempt))
          .(agent := Step(w.agent, Submit(attempt, r), h), origin := w.origin[attempt := app],
            sent := w.sent[id := attempt])
    case AgentMoves(action) => if action.Submit? then w else w.(agent := Step(w.agent, action, h))
    case Receive(id) =>
      if id in w.resumes && w.resumes[id].pc.Waiting? && w.resumes[id].pc.attempt in w.agent.attempts
         && w.agent.attempts[w.resumes[id].pc.attempt].pc.Done?
      then At(w, id, AfterResponse(w.agent.attempts[w.resumes[id].pc.attempt].pc.outcome))
      else w
    case GiveUp(id) =>
      if id in w.resumes && w.resumes[id].pc.Waiting? then At(w, id, Finished(AnsweredError)) else w
    case Clear(id) =>
      if id in w.resumes && w.resumes[id].pc.Clearing?
      then At(w, id, Finished(AnsweredDisbursed(w.resumes[id].pc.body)))
           .(store := w.store - {w.resumes[id].applicationId})
      else w
  }

  function Continue(w: World, events: seq<Move>, h: Request -> string): World {
    if events == [] then w
    else Next(Continue(w, events[..|events| - 1], h), events[|events| - 1], h)
  }

  function History(events: seq<Move>, h: Request -> string): World {
    Continue(NEW_WORLD, events, h)
  }

  // ---- The agent inside the world is the agent ------------------------------------------------

  /** What the agent sees of one move. */
  function Seen(w: World, e: Move): seq<Action> {
    match e
    case AgentMoves(action) => if action.Submit? then [] else [action]
    case Look(id, attempt) =>
      if id in w.resumes && w.resumes[id].pc == Looking && attempt !in w.agent.attempts
         && w.resumes[id].applicationId in w.store
         && ResumeRequest(w.store[w.resumes[id].applicationId], w.resumes[id].kind).Some?
      then [Submit(attempt, ResumeRequest(w.store[w.resumes[id].applicationId], w.resumes[id].kind).value)]
      else []
    case _ => []
  }

  /** The actions the agent sees in a history. */
  function AgentActions(events: seq<Move>, h: Request -> string): seq<Action> {
    if events == [] then []
    else
      var before := events[..|events| - 1];
      AgentActions(before, h) + Seen(History(before, h), events[|events| - 1])
  }

  lemma NextForTheAgent(w: World, e: Move, h: Request -> string)
    ensures |Seen(w, e)| <= 1
    ensures Next(w, e, h).agent == if Seen(w, e) == [] then w.agent else Step(w.agent, Seen(w, e)[0], h)
  {
  }

  lemma {:induction false} AgentRuns(events: seq<Move>, h: Request -> string)
    ensures History(events, h).agent == Reach(AgentActions(events, h), h)
  {
    if events != [] {
      var before, e := events[..|events| - 1], events[|events| - 1];
      AgentRuns(before, h);
      NextForTheAgent(History(before, h), e, h);
      var seen, now := AgentActions(before, h), Seen(History(before, h), e);
      if now != [] {
        RunAppend(START, seen, now[0], h);
        assert now == [now[0]];
      } else {
        assert seen + now == seen;
      }
    }
  }

  /** Authorized: the request of some state the pipeline saved, as approved or with one of its offers chosen. */
  ghost predicate Authorized(r: Request, saved: set<Paused>) {
    exists p, kind :: p in saved && ResumeRequest(p, kind) == Some(r)
  }

  predicate StoreWasSaved(w: World) {
    forall app :: app in w.store ==> w.store[app] in w.saved
  }

  /** How one event can change the world: the agent grows, and attempts are added only for a paused application. */
  ghost predicate Evolves(w: World, w': World) {
    && Grows(w.agent, w'.agent) && w.saved <= w'.saved
    && (forall app :: app in w'.store ==>
          w'.store[app] in w'.saved || (app in w.store && w'.store[app] == w.store[app]))
    && (w.agent.attempts.Keys == w.origin.Keys ==>
          && w'.agent.attempts.Keys == w'.origin.Keys
          && forall id :: id in w.origin ==> id in w'.origin && w'.origin[id] == w.origin[id])
    && (forall id :: id in w'.agent.attempts && id !in w.agent.attempts ==>
          && id in w'.origin && w'.origin[id] in w.store && w'.agent.attempts[id].pc == Reading
          && exists kind :: ResumeRequest(w.store[w'.origin[id]], kind) == Some(w'.agent.attempts[id].request))
  }

  lemma LookEvolves(w: World, id: nat, attempt: nat, h: Request -> string)
    requires id in w.resumes && w.resumes[id].pc == Looking && attempt !in w.agent.attempts
    requires w.resumes[id].applicationId in w.store
    requires ResumeRequest(w.store[w.resumes[id].applicationId], w.resumes[id].kind).Some?
    ensures Evolves(w, Next(w, Look(id, attempt), h))
  {
    var app, kind := w.resumes[id].applicationId, w.resumes[id].kind;
    var r := ResumeRequest(w.store[app], kind).value;
    assert Step(w.agent, Submit(attempt, r), h).attempts == w.agent.attempts[attempt := Attempt(r, Reading)];
    var w' := Next(w, Look(id, attempt), h);
    assert w'.agent.attempts[attempt].request == r && w'.origin[attempt] == app;
    assert ResumeRequest(w.store[w'.origin[attempt]], kind) == Some(w'.agent.attempts[attempt].request);
  }

  lemma AgentEvolves(w: World, action: Action, h: Request -> string)
    requires !action.Submit?
    ensures Evolves(w, w.(agent := Step(w.agent, action, h)))
  {
    StepGrows(w.agent, action, h);
  }

  lemma QuietEvolves(w: World, w': World)
    requires w'.agent == w.agent && w'.origin == w.origin && w.saved <= w'.saved
    requires forall app :: app in w'.store ==>
               w'.store[app] in w'.saved || (app in w.store && w'.store[app] == w.store[app])
    ensures Evolves(w, w')
  {
  }

  lemma NextEvolves(w: World, e: Move, h: Request -> string)
    ensures Evolves(w, Next(w, e, h))
  {
    if Seen(w, e) == [] {
      QuietEvolves(w, Next(w, e, h));
    } else {
      match e
      case AgentMoves(action) => AgentEvolves(w, action, h);
      case Look(id, attempt) => LookEvolves(w, id, attempt, h);
    }
  }

  lemma AuthorizedStep(w: World, w': World)
    requires Evolves(w, w') && StoreWasSaved(w)
    requires forall id :: id in w.agent.attempts ==> Authorized(w.agent.attempts[id].request, w.saved)
    ensures StoreWasSaved(w')
    ensures forall id :: id in w'.agent.attempts ==> Authorized(w'.agent.attempts[id].request, w'.saved)
  {
    forall id | id in w'.agent.attempts ensures Authorized(w'.agent.attempts[id].request, w'.saved) {
      if id in w.agent.attempts {
        var p, kind :| p in w.saved && ResumeRequest(p, kind) == Some(w.agent.attempts[id].request);
        assert p in w'.saved;
      }
    }
  }

  lemma {:induction false} OnlyAuthorizedRequests(events: seq<Move>, h: Request -> string)
    ensures var w := History(events, h);
            && StoreWasSaved(w) && w.agent.attempts.Keys == w.origin.Keys
            && forall id :: id in w.agent.attempts ==> Authorized(w.agent.attempts[id].request, w.saved)
  {
    if events != [] {
      var before := events[..|events| - 1];
      OnlyAuthorizedRequests(before, h);
      NextEvolves(History(before, h), events[|events| - 1], h);
      AuthorizedStep(History(before, h), History(events, h));
    }
  }

  /** A counter-offer is saved as the object it came in: iterating it for an offer raises. */
  predicate OffersUnreadable(p: Paused) {
    p.phase == AwaitingOfferSelection ==> p.offers.None?
  }

  /** Every pause in the history is one the pipeline can save. */
  predicate PipelineSaves(events: seq<Move>) {
    forall k :: 0 <= k < |events| && events[k].Save? ==> OffersUnreadable(events[k].state)
  }

  lemma {:induction false} SavedAreUnreadable(events: seq<Move>, h: Request -> string)
    requires PipelineSaves(events)
    ensures forall p :: p in History(events, h).saved ==> OffersUnreadable(p)
  {
    if events != [] {
      SavedAreUnreadable(events[..|events| - 1], h);
      NextSaves(History(events[..|events| - 1], h), events[|events| - 1], h);
    }
  }

  lemma NextSaves(w: World, e: Move, h: Request -> string)
    ensures Next(w, e, h).saved == w.saved + (if e.Save? then {e.state} else {})
  {
  }

  /** The request of some approval the pipeline saved. */
  ghost predicate Approved(r: Request, saved: set<Paused>) {
    exists p :: p in saved && p.phase == AwaitingApprovalConfirmation && p.terms == r
  }

  /** No counter-offer is ever sent: in histories of the pipeline every attempt is for approved terms. */
  lemma OnlyApprovalsAreSent(events: seq<Move>, h: Request -> string)
    requires PipelineSaves(events)
    ensures var w := History(events, h);
            forall id :: id in w.agent.attempts ==> Approved(w.agent.attempts[id].request, w.saved)
  {
    SavedAreUnreadable(events, h);
    OnlyAuthorizedRequests(events, h);
    var w := History(events, h);
    forall id | id in w.agent.attempts ensures Approved(w.agent.attempts[id].request, w.saved) {
      var p, kind :| p in w.saved && ResumeRequest(p, kind) == Some(w.agent.attempts[id].request);
      assert OffersUnreadable(p);
    }
  }

  /** Money safety of the whole: under concurrent resumes, cancels, retries after timeouts, crashes and errors, each
      application is paid at most once, and every payment is the net amount of terms the pipeline had saved. */
  lemma EveryPaymentIsAuthorizedAndUnique(events: seq<Move>, h: Request -> string)
    ensures var w := History(events, h);
            && (forall i, j :: 0 <= i < j < |w.agent.transfers| ==>
                  w.agent.transfers[i].applicationId != w.agent.transfers[j].applicationId)
            && (forall k :: 0 <= k < |w.agent.transfers| ==> AuthorizedPayment(w.agent.transfers[k], w.saved))
  {
    AgentRuns(events, h);
    AtMostOneTransfer(AgentActions(events, h), h);
    OnlyAuthorizedRequests(events, h);
    var w := History(events, h);
    forall k | 0 <= k < |w.agent.transfers| ensures AuthorizedPayment(w.agent.transfers[k], w.saved) {
      var r := w.agent.attempts[w.agent.transfers[k].attempt].request;
      assert Authorized(r, w.saved);
    }
  }

  ghost predicate AuthorizedPayment(t: Transfer, saved: set<Paused>) {
    exists r :: Authorized(r, saved) && r.applicationId == t.applicationId && r.disbursementAmount == t.amount
  }

  // ---- What an answer is worth ----------------------------------------------------------------

  function OutcomeOf(body: Body): Outcome {
    match body
    case ReceiptBody(receipt) => Replied(receipt)
    case InProgressBody => Refused(InProgressError)
  }

  /** The body in resume id's hands is what its own attempt ended with. */
  predicate AnswersFor(w: World, id: nat, body: Body) {
    && id in w.sent && w.sent[id] in w.agent.attempts
    && w.agent.attempts[w.sent[id]].pc == Done(OutcomeOf(body))
  }

  predicate ResumeIsHonest(w: World, id: nat)
    requires id in w.resumes
  {
    var pc := w.resumes[id].pc;
    && (pc.Waiting? ==> id in w.sent && w.sent[id] == pc.attempt)
    && (pc.Clearing? ==> AnswersFor(w, id, pc.body))
    && (pc.Finished? && pc.answer.AnsweredDisbursed? ==> AnswersFor(w, id, pc.answer.body))
  }

  predicate MovesResume(e: Move, id: nat) {
    (e.Begin? || e.Look? || e.Receive? || e.GiveUp? || e.Clear?) && e.id == id
  }

  lemma ResumeUnmoved(w: World, e: Move, h: Request -> string, id: nat)
    requires !MovesResume(e, id)
    ensures var w' := Next(w, e, h);
            && (id in w'.resumes ==> id in w.resumes && w'.resumes[id] == w.resumes[id])
            && (id in w.sent ==> id in w'.sent && w'.sent[id] == w.sent[id])
  {
  }

  lemma HonestSurvives(w: World, w': World, id: nat)
    requires id in w.resumes && id in w'.resumes && w'.resumes[id] == w.resumes[id] && ResumeIsHonest(w, id)
    requires Grows(w.agent, w'.agent) && (id in w.sent ==> id in w'.sent && w'.sent[id] == w.sent[id])
    ensures ResumeIsHonest(w', id)
  {
  }

  lemma LookIsHonest(w: World, id: nat, attempt: nat, h: Request -> string)
    requires id in w.resumes && ResumeIsHonest(w, id)
    ensures ResumeIsHonest(Next(w, Look(id, attempt), h), id)
  {
  }

  lemma ReceiptIsHonest(w: World, id: nat, h: Request -> string)
    requires id in w.resumes && ResumeIsHonest(w, id)
    ensures ResumeIsHonest(Next(w, Receive(id), h), id)
  {
  }

  lemma HonestStep(w: World, e: Move, h: Request -> string, id: nat)
    requires id in Next(w, e, h).resumes && (id in w.resumes ==> ResumeIsHonest(w, id))
    ensures ResumeIsHonest(Next(w, e, h), id)
  {
    if !MovesResume(e, id) {
      ResumeUnmoved(w, e, h, id);
      NextEvolves(w, e, h);
      HonestSurvives(w, Next(w, e, h), id);
    } else {
      match e
      case Look(_, attempt) => LookIsHonest(w, id, attempt, h);
      case Receive(_) => ReceiptIsHonest(w, id, h);
      case _ =>
    }
  }

  lemma {:induction false} BodiesComeFromReplies(events: seq<Move>, h: Request -> string, id: nat)
    requires id in History(events, h).resumes
    ensures ResumeIsHonest(History(events, h), id)
  {
    if events != [] {
      var before := events[..|events| - 1];
      if id in History(before, h).resumes {
        BodiesComeFromReplies(before, h, id);
      }
      HonestStep(History(before, h), events[|events| - 1], h, id);
    }
  }

  /** The request a resume has sent. */
  function SentBy(w: World, id: nat): Request
    requires id in w.sent && w.sent[id] in w.agent.attempts
  {
    w.agent.attempts[w.sent[id]].request
  }

  /** The request behind the row under a key. */
  function StoredBy(s: System, key: string): Request
    requires key in s.owners && s.owners[key] in s.attempts
  {
    s.attempts[s.owners[key]].request
  }

  predicate ToldDisbursed(w: World, id: nat) {
    id in w.resumes && w.resumes[id].pc.Finished? && w.resumes[id].pc.answer.AnsweredDisbursed?
  }

  /** The answer "DISBURSED" is not a promise of money: it is given for every 2xx response. When its body is a receipt,
      money has left for the application of the resume's request if and only if the request stored under that key pays,
      which is the resume's own if the hash is injective; and that is what the receipt shows by naming a transaction. */
  lemma DisbursedAnswerIsTrueIff(events: seq<Move>, h: Request -> string, id: nat)
    requires ToldDisbursed(History(events, h), id)
    requires History(events, h).resumes[id].pc.answer.body.ReceiptBody?
    ensures var w := History(events, h);
            && id in w.sent && w.sent[id] in w.agent.attempts
            && var r := SentBy(w, id);
               var receipt := w.resumes[id].pc.answer.body.receipt;
               && r.applicationId in w.agent.owners && w.agent.owners[r.applicationId] in w.agent.attempts
               && var stored := StoredBy(w.agent, r.applicationId);
                  && h(stored) == h(r) && (Injective(h) ==> stored == r)
                  && (PaidFor(w.agent, r.applicationId) <==> Pays(stored))
                  && receipt.Some? && receipt.value.applicationId == r.applicationId
                  && (receipt.value.transactionId.Some? <==> Pays(stored))
  {
    var w := History(events, h);
    BodiesComeFromReplies(events, h, id);
    AgentRuns(events, h);
    ReceiptTellsOfPays(AgentActions(events, h), h, w.sent[id]);
  }

  lemma ReceiptTellsOfPays(actions: seq<Action>, h: Request -> string, id: nat)
    requires var s := Reach(actions, h);
             id in s.attempts && s.attempts[id].pc.Done? && s.attempts[id].pc.outcome.Replied?
    ensures var s := Reach(actions, h);
            var app, payload := s.attempts[id].request.applicationId, s.attempts[id].pc.outcome.payload;
            && app in s.owners && s.owners[app] in s.attempts
            && h(StoredBy(s, app)) == h(s.attempts[id].request)
            && (PaidFor(s, app) <==> Pays(StoredBy(s, app)))
            && payload.Some? && payload.value.applicationId == app
            && (payload.value.transactionId.Some? <==> Pays(StoredBy(s, app)))
  {
    ReachableInv(actions, h);
    RepliesAgree(actions, h, id, id);
    var s := Reach(actions, h);
    assert GoodAttempt(s, id, h);
    assert OwnedRow(s, s.attempts[id].request.applicationId, h);
  }

  // ---- What a resume drops --------------------------------------------------------------------

  /** The last state saved for app. */
  function LastSaved(later: seq<Move>, app: string): Option<Paused> {
    if later == [] then None
    else
      var e := later[|later| - 1];
      if e.Save? && e.applicationId == app then Some(e.state) else LastSaved(later[..|later| - 1], app)
  }

  lemma NextStores(w: World, e: Move, h: Request -> string, app: string)
    ensures app in Next(w, e, h).store ==>
              if e.Save? && e.applicationId == app then Next(w, e, h).store[app] == e.state
              else app in w.store && Next(w, e, h).store[app] == w.store[app]
  {
  }

  lemma {:induction false} StoreFollowsSaves(w: World, later: seq<Move>, h: Request -> string, app: string)
    ensures app in Continue(w, later, h).store ==>
              match LastSaved(later, app)
              case Some(p) => Continue(w, later, h).store[app] == p
              case None => app in w.store && Continue(w, later, h).store[app] == w.store[app]
  {
    if later != [] {
      var before := later[..|later| - 1];
      StoreFollowsSaves(w, before, h, app);
      NextStores(Continue(w, before, h), later[|later| - 1], h, app);
    }
  }

  lemma NextKeepsApplication(w: World, e: Move, h: Request -> string, id: nat)
    requires id in w.resumes
    ensures id in Next(w, e, h).resumes && Next(w, e, h).resumes[id].applicationId == w.resumes[id].applicationId
  {
  }

  lemma {:induction false} ResumeKeepsApplication(w: World, later: seq<Move>, h: Request -> string, id: nat)
    requires id in w.resumes
    ensures var w' := Continue(w, later, h);
            id in w'.resumes && w'.resumes[id].applicationId == w.resumes[id].applicationId
  {
    if later != [] {
      var before := later[..|later| - 1];
      ResumeKeepsApplication(w, before, h, id);
      NextKeepsApplication(Continue(w, before, h), later[|later| - 1], h, id);
    }
  }

  lemma LookKeepsTheStore(w: World, id: nat, attempt: nat, h: Request -> string)
    ensures Next(w, Look(id, attempt), h).store == w.store
  {
  }

  /** Resume id looks and finds a pause it can ask for. */
  predicate Finds(w: World, id: nat, attempt: nat) {
    && id in w.resumes && w.resumes[id].pc == Looking && attempt !in w.agent.attempts
    && w.resumes[id].applicationId in w.store
    && ResumeRequest(w.store[w.resumes[id].applicationId], w.resumes[id].kind).Some?
  }

  /** A resume that clears drops whatever is then paused for its application: that is the pause it has read if and only
      if the application was not saved since with another state. */
  lemma ClearDropsWhatWasReadIff(w: World, id: nat, attempt: nat, later: seq<Move>, h: Request -> string)
    requires Finds(w, id, attempt)
    requires id in Continue(Next(w, Look(id, attempt), h), later, h).resumes
    requires var w' := Continue(Next(w, Look(id, attempt), h), later, h);
             w'.resumes[id].pc.Clearing? && w.resumes[id].applicationId in w'.store
    ensures var w' := Continue(Next(w, Look(id, attempt), h), later, h);
            var app := w.resumes[id].applicationId;
            && app !in Next(w', Clear(id), h).store
            && (w'.store[app] == w.store[app]
                <==> LastSaved(later, app) == None || LastSaved(later, app) == Some(w.store[app]))
  {
    var looked := Next(w, Look(id, attempt), h);
    ResumeKeepsApplication(looked, later, h, id);
    StoreFollowsSaves(looked, later, h, w.resumes[id].applicationId);
    LookKeepsTheStore(w, id, attempt, h);
  }
}
