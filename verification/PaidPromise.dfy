/** The ordinary run: an approval is resumed, paid, and its client told so with the receipt. */
module PaidPromise {
  import opened Wrappers
  import opened Workflow
  import opened Idempotency
  import opened Protocol
  import opened MoneySafety
  import opened Prospects
  import opened Orchestrator
  import opened Cancellation

  lemma NodeRuns(r: Request, row: Row, node: Node, state: State, transfers: seq<Transfer>, h: Request -> string)
    requires node != End && RunNode(node, state, "").Success?
    ensures var state' := RunNode(node, state, "").value;
            Step(Solo(r, row, Working(node, state), transfers), Go(0), h)
            == Solo(r, row, Working(NextNode(node, state'), state'), transfers + TransfersOf(0, node, state, ""))
  {
  }

  lemma {:induction false} GraphRuns(r: Request, row: Row, node: Node, state: State, transfers: seq<Transfer>,
                                     h: Request -> string)
    returns (actions: seq<Action>, transfers': seq<Transfer>)
    requires RunFrom(node, state, "").Success?
    ensures OnlyGo(actions, 0)
    ensures Run(Solo(r, row, Working(node, state), transfers), actions, h)
         == Solo(r, row, Working(End, RunFrom(node, state, "").value), transfers')
    decreases Distance(node)
  {
    var s := Solo(r, row, Working(node, state), transfers);
    if node == End {
      actions, transfers' := [], transfers;
      assert Run(s, [], h) == s;
    } else {
      NodeRuns(r, row, node, state, transfers, h);
      var state' := RunNode(node, state, "").value;
      var rest;
      rest, transfers' :=
        GraphRuns(r, row, NextNode(node, state'), state', transfers + TransfersOf(0, node, state, ""), h);
      RunFirst(s, Go(0), rest, h);
      actions := [Go(0)] + rest;
    }
  }

  /** Saving, completing, replying. */
  lemma ReplyRuns(r: Request, row: Row, state: State, transfers: seq<Transfer>, h: Request -> string)
    ensures var replied := Row(row.requestHash, COMPLETED, state.receipt);
            && Step(Solo(r, row, Working(End, state), transfers), Go(0), h)
               == Solo(r, row, Saving(state.receipt), transfers)
            && Step(Solo(r, row, Saving(state.receipt), transfers), Go(0), h)
               == Solo(r, row, Completing(state.receipt), transfers)
            && Step(Solo(r, row, Completing(state.receipt), transfers), Go(0), h)
               == Solo(r, replied, Replying(Replied(state.receipt)), transfers)
            && Step(Solo(r, replied, Replying(Replied(state.receipt)), transfers), Go(0), h)
               == Solo(r, replied, Done(Replied(state.receipt)), transfers)
  {
  }

  /** One more step of attempt 0. */
  lemma OneMoreGo(s: System, actions: seq<Action>, h: Request -> string, s': System, s'': System)
    requires OnlyGo(actions, 0) && Run(s, actions, h) == s' && Step(s', Go(0), h) == s''
    ensures OnlyGo(actions + [Go(0)], 0) && Run(s, actions + [Go(0)], h) == s''
  {
    RunAppend(s, actions, Go(0), h);
  }

  lemma HandlerRuns(r: Request, h: Request -> string)
    returns (actions: seq<Action>, final: State, transfers: seq<Transfer>)
    requires RunGraph(r, "").Success?
    ensures OnlyGo(actions, 0) && final == RunGraph(r, "").value
    ensures Run(Solo(r, Row(h(r), PROCESSING, None), Working(ValidateDecisionNode, InitialState(r)), []), actions, h)
         == Solo(r, Row(h(r), COMPLETED, final.receipt), Done(Replied(final.receipt)), transfers)
  {
    var row := Row(h(r), PROCESSING, None);
    var s := Solo(r, row, Working(ValidateDecisionNode, InitialState(r)), []);
    final := RunGraph(r, "").value;
    actions, transfers := GraphRuns(r, row, ValidateDecisionNode, InitialState(r), [], h);
    ReplyRuns(r, row, final, transfers, h);
    var replied := Row(h(r), COMPLETED, final.receipt);
    OneMoreGo(s, actions, h, Solo(r, row, Working(End, final), transfers),
              Solo(r, row, Saving(final.receipt), transfers));
    actions := actions + [Go(0)];
    OneMoreGo(s, actions, h, Solo(r, row, Saving(final.receipt), transfers),
              Solo(r, row, Completing(final.receipt), transfers));
    actions := actions + [Go(0)];
    OneMoreGo(s, actions, h, Solo(r, row, Completing(final.receipt), transfers),
              Solo(r, replied, Replying(Replied(final.receipt)), transfers));
    actions := actions + [Go(0)];
    OneMoreGo(s, actions, h, Solo(r, replied, Replying(Replied(final.receipt)), transfers),
              Solo(r, replied, Done(Replied(final.receipt)), transfers));
    actions := actions + [Go(0)];
  }

  lemma PayableRunsThrough(r: Request)
    requires Payable(r)
    ensures RunGraph(r, "").Success?
  {
    assert AfterSchedule(AfterValidation(InitialState(r))).Success?;
  }

  /** Resume 0 is told what its attempt ended with, and the pause is dropped. */
  lemma ReceivesAndClears(w: World, app: string, p: Paused, payload: Option<Receipt>, h: Request -> string)
    requires 0 in w.resumes && w.resumes[0] == Resume(app, ConfirmApproval, Waiting(0))
    requires 0 in w.agent.attempts && w.agent.attempts[0].pc == Done(Replied(payload))
    ensures var w' := Next(Next(w, Receive(0), h), Clear(0), h);
            && 0 in w'.resumes
            && w'.resumes[0] == Resume(app, ConfirmApproval, Finished(AnsweredDisbursed(ReceiptBody(payload))))
            && w'.agent == w.agent && app !in w'.store
  {
  }

  /** The client of app is told DISBURSED with the receipt of a payment that has left. */
  predicate ToldTruly(w: World, app: string, r: Request) {
    && 0 in w.resumes && w.resumes[0].applicationId == app && ToldDisbursed(w, 0)
    && w.resumes[0].pc.answer.body.ReceiptBody? && w.resumes[0].pc.answer.body.receipt.Some?
    && var receipt := w.resumes[0].pc.answer.body.receipt.value;
       && receipt.applicationId == r.applicationId && receipt.disbursementAmount == r.disbursementAmount
       && receipt.transactionId.Some? && PaidFor(w.agent, r.applicationId) && app !in w.store
  }

  lemma TheRun(app: string, p: Paused, h: Request -> string) returns (events: seq<Move>, final: State)
    requires p.phase == AwaitingApprovalConfirmation && RunGraph(p.terms, "").Success?
    ensures final == RunGraph(p.terms, "").value
    ensures var w := History(events, h);
            && 0 in w.resumes && app !in w.store
            && w.resumes[0] == Resume(app, ConfirmApproval, Finished(AnsweredDisbursed(ReceiptBody(final.receipt))))
            && w.agent.owners == map[p.terms.applicationId := 0]
            && 0 in w.agent.attempts && w.agent.attempts[0].request == p.terms
  {
    var r := p.terms;
    var first := FirstResume(app, p, h);
    var w := FirstUnderWay(app, p, h);
    var actions, transfers;
    actions, final, transfers := HandlerRuns(r, h);
    var done := Solo(r, Row(h(r), COMPLETED, final.receipt), Done(Replied(final.receipt)), transfers);
    LiftedRuns(w, actions, h);
    ContinueOn(NEW_WORLD, first, Lifted(actions), h);
    events := first + Lifted(actions);
    var w' := w.(agent := done);
    assert History(events, h) == w';
    ReceivesAndClears(w', app, p, final.receipt, h);
    var received := Next(w', Receive(0), h);
    OneMoreMove(events, Receive(0), h, w', received);
    OneMoreMove(events + [Receive(0)], Clear(0), h, received, Next(received, Clear(0), h));
    events := events + [Receive(0)] + [Clear(0)];
  }

  /** It is so for every approval whose terms pay: there is a run that ends with the truth told. */
  lemma PaidAndTold(app: string, p: Paused, h: Request -> string)
    requires p.phase == AwaitingApprovalConfirmation && Payable(p.terms)
    ensures exists events :: ToldTruly(History(events, h), app, p.terms)
  {
    PayableRunsThrough(p.terms);
    var events, final := TheRun(app, p, h);
    ReceiptTellsTheOutcome(p.terms, "");
    TruthIsTold(events, app, p.terms, final, h);
  }

  lemma TruthIsTold(events: seq<Move>, app: string, r: Request, final: State, h: Request -> string)
    requires var w := History(events, h);
             && 0 in w.resumes && app !in w.store
             && w.resumes[0] == Resume(app, ConfirmApproval, Finished(AnsweredDisbursed(ReceiptBody(final.receipt))))
             && w.agent.owners == map[r.applicationId := 0] && 0 in w.agent.attempts && w.agent.attempts[0].request == r
    requires Pays(r) && final.receipt.Some? && final.receipt.value.disbursementAmount == r.disbursementAmount
    ensures ToldTruly(History(events, h), app, r)
  {
    DisbursedAnswerIsTrueIff(events, h, 0);
    var w := History(events, h);
    assert SentBy(w, 0).applicationId == r.applicationId;
    assert StoredBy(w.agent, r.applicationId) == r;
  }
}
