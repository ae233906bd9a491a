/** The orchestrator's resume and cancel calls, statement by statement, driving the disbursement agent's handler. */
module Resumption {
  import opened Wrappers
  import opened Emi
  import opened Workflow
  import opened Idempotency
  import opened Protocol
  import opened Execution
  import opened Orchestrator
  import opened Cancellation

  /** `next((option for option in options if ...), None)`. */
  method FindSelected(offers: seq<Offer>, offerId: string) returns (selected: Option<Offer>)
    ensures selected == FindOffer(offers, offerId)
    ensures selected.None? <==> forall i :: 0 <= i < |offers| ==> offers[i].offerId != offerId
    ensures selected.Some? ==> selected.value in offers && IsFirst(offers, offerId, selected.value)
  {
    var i := 0;
    while i < |offers|
      invariant 0 <= i <= |offers|
      invariant FindOffer(offers[i..], offerId) == FindOffer(offers, offerId)
      invariant forall j :: 0 <= j < i ==> offers[j].offerId != offerId
    {
      if offers[i].offerId == offerId {
        return Some(offers[i]);
      }
      assert offers[i..][1..] == offers[i + 1..];
      i := i + 1;
    }
    return None;
  }

  /** Checks the phase and builds the payload; an error is a ValueError. What is sent is the saved terms, as approved or
      with the chosen offer's principal, tenure and rate and the fee kept back from its principal. */
  method BuildPayload(store: PipelineStateStore, app: string, kind: Kind) returns (payload: Option<Request>)
    ensures payload == if app in store.store then ResumeRequest(store.store[app], kind) else None
    ensures app !in store.store ==> payload == None
    ensures app in store.store ==>
              var p := store.store[app];
              match kind
              case ConfirmApproval =>
                payload == if p.phase == AwaitingApprovalConfirmation then Some(p.terms) else None
              case SelectOffer(offerId) =>
                && (payload.Some? <==> p.phase == AwaitingOfferSelection && p.offers.Some?
                                       && exists i :: 0 <= i < |p.offers.value| && p.offers.value[i].offerId == offerId)
                && (payload.Some? ==> AsksForFirst(p, offerId, payload.value))
  {
    var state := store.GetState(app);
    if state.None? {
      return None;
    }
    var p := state.value;
    match kind {
      case ConfirmApproval =>
        if p.phase != AwaitingApprovalConfirmation {
          return None;
        }
        return Some(p.terms);
      case SelectOffer(offerId) =>
        if p.phase != AwaitingOfferSelection || p.offers.None? {
          return None;
        }
        var selected := FindSelected(p.offers.value, offerId);
        if selected.None? {
          return None;
        }
        var offer := selected.value;
        return Some(p.terms.(approvedAmount := offer.principal, tenure := offer.tenure, rate := offer.annualRate,
                             disbursementAmount := offer.principal - p.fee));
    }
  }

  predicate IsFirst(offers: seq<Offer>, offerId: string, offer: Offer) {
    exists i :: 0 <= i < |offers| && offers[i] == offer && offer.offerId == offerId
                && forall j :: 0 <= j < i ==> offers[j].offerId != offerId
  }

  /** r is what the first offer with the id, and the saved terms for the rest, amount to. */
  predicate AsksForFirst(p: Paused, offerId: string, r: Request) {
    && p.offers.Some?
    && exists offer :: offer in p.offers.value && IsFirst(p.offers.value, offerId, offer)
         && r == Request(p.terms.applicationId, offer.principal, offer.tenure, offer.annualRate,
                         offer.principal - p.fee, p.terms.explanation)
  }

  // ---- A resume as moves of the world ----------------------------------------------------------

  /** Some moves, none of which saves a pause, lead from one world to another. */
  ghost predicate Leads(w: World, w': World, h: Request -> string) {
    exists later :: Continue(w, later, h) == w' && forall app :: NeverResaves(later, app)
  }

  lemma LeadsItself(w: World, h: Request -> string)
    ensures Leads(w, w, h)
  {
    assert Continue(w, [], h) == w && forall app :: NeverResaves([], app);
  }

  lemma LeadsOn(w: World, w': World, e: Move, h: Request -> string)
    requires Leads(w, w', h) && !e.Save?
    ensures Leads(w, Next(w', e, h), h)
  {
    var later :| Continue(w, later, h) == w' && forall app :: NeverResaves(later, app);
    ContinueOn(w, later, [e], h);
    ContinueOne(w', e, h);
    assert Continue(w, later + [e], h) == Next(w', e, h);
    forall app ensures NeverResaves(later + [e], app) {
      assert NeverResaves(later, app);
    }
  }

  lemma LeadsWithTheAgent(w: World, w': World, id: nat, now: System, h: Request -> string)
    requires Leads(w, w', h) && Follows(w'.agent, now, id, h)
    ensures Leads(w, w'.(agent := now), h)
  {
    var later :| Continue(w, later, h) == w' && forall app :: NeverResaves(later, app);
    var actions :| OnlyBy(actions, id) && Run(w'.agent, actions, h) == now;
    LiftedRuns(w', actions, h);
    ContinueOn(w, later, Lifted(actions), h);
    assert Continue(w, later + Lifted(actions), h) == w'.(agent := now);
    forall app ensures NeverResaves(later + Lifted(actions), app) {
      assert NeverResaves(later, app);
    }
  }

  /** The heap agrees with world w, in which resume rid stands at pc. */
  ghost predicate Mirrors(store: PipelineStateStore, repo: IdempotencyRepository, bank: Bank, w: World, rid: nat,
                          app: string, kind: Kind, pc: ResumePc)
    reads store, repo, bank
  {
    && store.store == w.store && repo.rows == w.agent.rows && bank.transfers == w.agent.transfers
    && rid in w.resumes && w.resumes[rid] == Orchestrator.Resume(app, kind, pc)
  }

  /** What the caller is told, by the agent's last word. */
  function Told(outcome: Outcome): Answer {
    match outcome
    case Replied(receipt) => AnsweredDisbursed(ReceiptBody(receipt))
    case Refused(reason) => if reason == InProgressError then AnsweredDisbursed(InProgressBody) else AnsweredError
  }

  /** World w with resume rid at pc. */
  function AtPc(w: World, rid: nat, app: string, kind: Kind, pc: ResumePc): World {
    w.(resumes := w.resumes[rid := Orchestrator.Resume(app, kind, pc)])
  }

  /** The world behind a look: an error, or an attempt on its way. */
  function Looked(w: World, rid: nat, id: nat, app: string, kind: Kind, payload: Option<Request>, h: Request -> string)
    : World
  {
    if payload.None? then AtPc(w, rid, app, kind, Finished(AnsweredError))
    else
      AtPc(w, rid, app, kind, Waiting(id))
      .(agent := Step(w.agent, Submit(id, payload.value), h), origin := w.origin[id := app], sent := w.sent[rid := id])
  }

  lemma BeginsAndLooks(w: World, rid: nat, id: nat, app: string, kind: Kind, h: Request -> string)
    requires rid !in w.resumes && id !in w.agent.attempts
    ensures var payload := if app in w.store then ResumeRequest(w.store[app], kind) else None;
            Leads(w, Looked(w, rid, id, app, kind, payload, h), h)
  {
    var begun := AtPc(w, rid, app, kind, Looking);
    LeadsItself(w, h);
    LeadsOn(w, w, Begin(rid, app, kind), h);
    Begins(w, rid, app, kind, h);
    LeadsOn(w, begun, Look(rid, id), h);
    LooksFor(begun, rid, id, h);
    LookedEither(w, rid, id, app, kind, if app in w.store then ResumeRequest(w.store[app], kind) else None, h);
  }

  lemma Begins(w: World, rid: nat, app: string, kind: Kind, h: Request -> string)
    requires rid !in w.resumes
    ensures Next(w, Begin(rid, app, kind), h) == AtPc(w, rid, app, kind, Looking)
  {
  }

  lemma LookedEither(w: World, rid: nat, id: nat, app: string, kind: Kind, payload: Option<Request>,
                     h: Request -> string)
    ensures Looked(AtPc(w, rid, app, kind, Looking), rid, id, app, kind, payload, h)
         == Looked(w, rid, id, app, kind, payload, h)
  {
    var begun := AtPc(w, rid, app, kind, Looking);
    forall pc ensures AtPc(begun, rid, app, kind, pc).resumes == AtPc(w, rid, app, kind, pc).resumes {
    }
  }

  lemma LooksFor(w: World, rid: nat, id: nat, h: Request -> string)
    requires rid in w.resumes && w.resumes[rid].pc == Looking && id !in w.agent.attempts
    ensures var app, kind := w.resumes[rid].applicationId, w.resumes[rid].kind;
            var payload := if app in w.store then ResumeRequest(w.store[app], kind) else None;
            Next(w, Look(rid, id), h) == Looked(w, rid, id, app, kind, payload, h)
  {
  }

  lemma Hears(w: World, rid: nat, id: nat, app: string, kind: Kind, h: Request -> string)
    requires rid in w.resumes && w.resumes[rid] == Orchestrator.Resume(app, kind, Waiting(id))
    requires id in w.agent.attempts && w.agent.attempts[id].pc.Done?
    ensures var answer := Told(w.agent.attempts[id].pc.outcome);
            Next(w, Receive(rid), h)
            == AtPc(w, rid, app, kind, if answer.AnsweredDisbursed? then Clearing(answer.body) else Finished(answer))
  {
  }

  lemma Clears(w: World, rid: nat, app: string, kind: Kind, body: Body, h: Request -> string)
    ensures Next(AtPc(w, rid, app, kind, Clearing(body)), Clear(rid), h)
         == AtPc(w, rid, app, kind, Finished(AnsweredDisbursed(body))).(store := w.store - {app})
  {
    var w' := AtPc(w, rid, app, kind, Clearing(body));
    assert w'.resumes[rid := Orchestrator.Resume(app, kind, Finished(AnsweredDisbursed(body)))]
        == w.resumes[rid := Orchestrator.Resume(app, kind, Finished(AnsweredDisbursed(body)))];
  }

  /** The world behind an answer. */
  function Answered(w: World, rid: nat, app: string, kind: Kind, answer: Answer): World {
    var w' := AtPc(w, rid, app, kind, Finished(answer));
    if answer.AnsweredDisbursed? then w'.(store := w.store - {app}) else w'
  }

  /** From waiting to the answer, or giving up. */
  lemma LeadsToTheAnswer(w: World, w': World, rid: nat, id: nat, app: string, kind: Kind, heard: bool,
                         h: Request -> string)
    requires Leads(w, w', h) && rid in w'.resumes && w'.resumes[rid] == Orchestrator.Resume(app, kind, Waiting(id))
    requires id in w'.agent.attempts && w'.agent.attempts[id].pc.Done?
    ensures var answer := if heard then Told(w'.agent.attempts[id].pc.outcome) else AnsweredError;
            Leads(w, Answered(w', rid, app, kind, answer), h)
  {
    if heard {
      Hears(w', rid, id, app, kind, h);
      LeadsOn(w, w', Receive(rid), h);
      var answer := Told(w'.agent.attempts[id].pc.outcome);
      if answer.AnsweredDisbursed? {
        Clears(w', rid, app, kind, answer.body, h);
        LeadsOn(w, Next(w', Receive(rid), h), Clear(rid), h);
      }
    } else {
      LeadsOn(w, w', GiveUp(rid), h);
      assert Next(w', GiveUp(rid), h) == Answered(w', rid, app, kind, AnsweredError);
    }
  }

  /**
   * One resume from look-up to answer, with nothing else in between; `heard` is false when the response is lost. It is
   * a run of the world. Without a pause that asks for a request nothing happens; else the agent sees one attempt, and
   * what it ends with decides: a receipt or a request in progress is answered DISBURSED and the pause is dropped, every
   * other refusal and a lost response is an error and the pause stays.
   */
  method Resume(store: PipelineStateStore, repo: IdempotencyRepository, bank: Bank, ghost w: World, ghost rid: nat,
                id: nat, app: string, kind: Kind, h: Request -> string, luck: Luck, reference: string, heard: bool)
    returns (answer: Answer, ghost w': World)
    requires store.store == w.store && repo.rows == w.agent.rows && bank.transfers == w.agent.transfers
    requires rid !in w.resumes && id !in w.agent.attempts
    modifies store, repo, bank
    ensures Leads(w, w', h) && Mirrors(store, repo, bank, w', rid, app, kind, Finished(answer))
    ensures (if app in w.store then ResumeRequest(w.store[app], kind) else None) == None ==>
              answer == AnsweredError && store.store == old(store.store)
              && repo.rows == old(repo.rows) && bank.transfers == old(bank.transfers)
    ensures app in w.store && ResumeRequest(w.store[app], kind).Some? ==>
              && id in w'.agent.attempts && w'.agent.attempts[id].pc.Done?
              && w'.agent.attempts[id].request == ResumeRequest(w.store[app], kind).value
              && if !heard then answer == AnsweredError && store.store == old(store.store)
                 else
                   match w'.agent.attempts[id].pc.outcome
                   case Replied(receipt) =>
                     answer == AnsweredDisbursed(ReceiptBody(receipt)) && store.store == old(store.store) - {app}
                   case Refused(InProgressError) =>
                     answer == AnsweredDisbursed(InProgressBody) && store.store == old(store.store) - {app}
                   case Refused(_) => answer == AnsweredError && store.store == old(store.store)
  {
    BeginsAndLooks(w, rid, id, app, kind, h);
    var payload := BuildPayload(store, app, kind);
    w' := Looked(w, rid, id, app, kind, payload, h);
    if payload.None? {
      return AnsweredError, w';
    }
    ghost var now;
    var outcome;
    outcome, now := ExecuteDisbursement(repo, bank, w.agent, id, payload.value, h, luck, reference);
    LeadsWithTheAgent(w, w', id, now, h);
    LeadsToTheAnswer(w, w'.(agent := now), rid, id, app, kind, heard, h);
    answer := AnsweredError;
    if heard {
      match outcome {
        case Replied(receipt) => answer := AnsweredDisbursed(ReceiptBody(receipt));
        case Refused(InProgressError) => answer := AnsweredDisbursed(InProgressBody);
        case Refused(_) =>
      }
    }
    if answer.AnsweredDisbursed? {
      store.ClearState(app);
    }
    w' := Answered(w'.(agent := now), rid, app, kind, answer);
  }

  method CancelPendingApplication(store: PipelineStateStore, app: string)
    modifies store
    ensures store.store == old(store.store) - {app}
  {
    store.ClearState(app);
  }
}
