/** A run in which a client is told DISBURSED and no money ever leaves: a duplicate answered while the first request is
    in progress, and the first request lost in a crash. */
module UnpaidPromise {
  import opened Workflow
  import opened Protocol
  import opened Prospects
  import opened Orchestrator
  import opened Cancellation

  /** A second resume has sent the same request. */
  function SecondAt(app: string, p: Paused, h: Request -> string, pc: ResumePc, attempt: Pc): World {
    var w := FirstUnderWay(app, p, h);
    w.(resumes := w.resumes[1 := Resume(app, ConfirmApproval, pc)],
       agent := w.agent.(attempts := w.agent.attempts[1 := Attempt(p.terms, attempt)]),
       origin := w.origin[1 := app], sent := w.sent[1 := 1])
  }

  /** The second resume has been called and has not yet looked the application up. */
  function SecondBegun(app: string, p: Paused, h: Request -> string): World {
    var w := FirstUnderWay(app, p, h);
    w.(resumes := w.resumes[1 := Resume(app, ConfirmApproval, Looking)])
  }

  lemma SecondLooks(app: string, p: Paused, h: Request -> string)
    requires p.phase == AwaitingApprovalConfirmation
    ensures Next(FirstUnderWay(app, p, h), Begin(1, app, ConfirmApproval), h) == SecondBegun(app, p, h)
    ensures Next(SecondBegun(app, p, h), Look(1, 1), h) == SecondAt(app, p, h, Waiting(1), Reading)
  {
    var w := SecondBegun(app, p, h);
    assert Step(w.agent, Submit(1, p.terms), h)
        == w.agent.(attempts := w.agent.attempts[1 := Attempt(p.terms, Reading)]);
  }

  lemma SecondReads(app: string, p: Paused, h: Request -> string)
    ensures Next(SecondAt(app, p, h, Waiting(1), Reading), AgentMoves(Go(1)), h)
         == SecondAt(app, p, h, Waiting(1), Replying(Refused(InProgressError)))
  {
    var agent := SecondAt(app, p, h, Waiting(1), Reading).agent;
    assert ReadStep(agent, 1, h) == Goto(agent, 1, Replying(Refused(InProgressError)));
    assert agent.attempts[1 := Attempt(p.terms, Replying(Refused(InProgressError)))]
        == SecondAt(app, p, h, Waiting(1), Replying(Refused(InProgressError))).agent.attempts;
  }

  lemma SecondReplies(app: string, p: Paused, h: Request -> string)
    ensures Next(SecondAt(app, p, h, Waiting(1), Replying(Refused(InProgressError))), AgentMoves(Go(1)), h)
         == SecondAt(app, p, h, Waiting(1), Done(Refused(InProgressError)))
  {
    var agent := SecondAt(app, p, h, Waiting(1), Replying(Refused(InProgressError))).agent;
    assert agent.attempts[1 := Attempt(p.terms, Done(Refused(InProgressError)))]
        == SecondAt(app, p, h, Waiting(1), Done(Refused(InProgressError))).agent.attempts;
  }

  lemma SecondSends(events: seq<Move>, app: string, p: Paused, h: Request -> string) returns (events': seq<Move>)
    requires p.phase == AwaitingApprovalConfirmation && History(events, h) == FirstUnderWay(app, p, h)
    ensures History(events', h) == SecondAt(app, p, h, Waiting(1), Done(Refused(InProgressError)))
  {
    SecondLooks(app, p, h);
    SecondReads(app, p, h);
    SecondReplies(app, p, h);
    var e1 := events + [Begin(1, app, ConfirmApproval)];
    OneMoreMove(events, Begin(1, app, ConfirmApproval), h, FirstUnderWay(app, p, h), SecondBegun(app, p, h));
    var e2 := e1 + [Look(1, 1)];
    OneMoreMove(e1, Look(1, 1), h, SecondBegun(app, p, h), SecondAt(app, p, h, Waiting(1), Reading));
    OneMoreMove(e2, AgentMoves(Go(1)), h, SecondAt(app, p, h, Waiting(1), Reading),
                SecondAt(app, p, h, Waiting(1), Replying(Refused(InProgressError))));
    OneMoreMove(e2 + [AgentMoves(Go(1))], AgentMoves(Go(1)), h,
                SecondAt(app, p, h, Waiting(1), Replying(Refused(InProgressError))),
                SecondAt(app, p, h, Waiting(1), Done(Refused(InProgressError))));
    events' := e2 + [AgentMoves(Go(1))] + [AgentMoves(Go(1))];
  }

  /** The pause is dropped and the client is told. */
  function Told(app: string, p: Paused, h: Request -> string): World {
    SecondAt(app, p, h, Finished(AnsweredDisbursed(InProgressBody)), Done(Refused(InProgressError))).(store := map[])
  }

  lemma SecondReceives(app: string, p: Paused, h: Request -> string)
    ensures Next(SecondAt(app, p, h, Waiting(1), Done(Refused(InProgressError))), Receive(1), h)
         == SecondAt(app, p, h, Clearing(InProgressBody), Done(Refused(InProgressError)))
  {
  }

  lemma SecondClears(app: string, p: Paused, h: Request -> string)
    ensures Next(SecondAt(app, p, h, Clearing(InProgressBody), Done(Refused(InProgressError))), Clear(1), h)
         == Told(app, p, h)
  {
    assert map[app := p] - {app} == map[];
  }

  lemma SecondIsTold(events: seq<Move>, app: string, p: Paused, h: Request -> string) returns (events': seq<Move>)
    requires History(events, h) == SecondAt(app, p, h, Waiting(1), Done(Refused(InProgressError)))
    ensures History(events', h) == Told(app, p, h)
  {
    SecondReceives(app, p, h);
    SecondClears(app, p, h);
    OneMoreMove(events, Receive(1), h, SecondAt(app, p, h, Waiting(1), Done(Refused(InProgressError))),
                SecondAt(app, p, h, Clearing(InProgressBody), Done(Refused(InProgressError))));
    OneMoreMove(events + [Receive(1)], Clear(1), h,
                SecondAt(app, p, h, Clearing(InProgressBody), Done(Refused(InProgressError))), Told(app, p, h));
    events' := events + [Receive(1)] + [Clear(1)];
  }

  /** A resume refused because a duplicate is in progress is told DISBURSED and its pause is dropped, with nothing
      paid. */
  predicate PromisedUnpaid(w: World, app: string) {
    && w.agent.transfers == [] && app !in w.store
    && exists id :: id in w.resumes && w.resumes[id].applicationId == app && ToldInProgress(w, id)
  }

  lemma ThenTheFirstIsLost(app: string, p: Paused, h: Request -> string)
    ensures var w := Next(Told(app, p, h), AgentMoves(Crash(0)), h);
            PromisedUnpaid(w, app) && Idle(w, app)
  {
    var w := Next(Told(app, p, h), AgentMoves(Crash(0)), h);
    assert w.resumes[1].applicationId == app;
    assert w.agent.attempts[0].pc == Crashed && w.agent.attempts[1].pc == Done(Refused(InProgressError));
  }

  /** It can happen to every application waiting for approval, and then stays so: until the pipeline pauses the
      application again, nothing is ever paid on its behalf. */
  lemma PromisedButNeverPaid(app: string, p: Paused, h: Request -> string)
    requires p.phase == AwaitingApprovalConfirmation
    ensures exists events :: PromisedUnpaid(History(events, h), app) && NeverPaidAfter(events, app, h)
  {
    var first := FirstResume(app, p, h);
    var sent := SecondSends(first, app, p, h);
    var told := SecondIsTold(sent, app, p, h);
    OneMoreMove(told, AgentMoves(Crash(0)), h, Told(app, p, h), Next(Told(app, p, h), AgentMoves(Crash(0)), h));
    ThenTheFirstIsLost(app, p, h);
    var events := told + [AgentMoves(Crash(0))];
    IdleIsNeverPaid(events, app, h);
    assert PromisedUnpaid(History(events, h), app);
  }

  ghost predicate NeverPaidAfter(events: seq<Move>, app: string, h: Request -> string) {
    forall later: seq<Move>, t :: NeverResaves(later, app) ==>
      !PaidOnBehalf(Continue(History(events, h), later, h), app, t)
  }

  lemma IdleIsNeverPaid(events: seq<Move>, app: string, h: Request -> string)
    requires Idle(History(events, h), app) && History(events, h).agent.transfers == []
    ensures NeverPaidAfter(events, app, h)
  {
    forall later: seq<Move>, t | NeverResaves(later, app)
      ensures !PaidOnBehalf(Continue(History(events, h), later, h), app, t)
    {
      IdleStaysUnpaid(events, later, h, app);
    }
  }

  /** It can happen to every application waiting for approval that the pipeline pauses it again while a resume waits,
      and the resume drops the newer pause unread. */
  lemma ANewerPauseIsLost(app: string, p: Paused, newer: Paused, h: Request -> string)
    requires p.phase == AwaitingApprovalConfirmation
    ensures exists events ::
      var w := History(events, h);
      && app in w.store && w.store[app] == newer
      && 1 in w.resumes && w.resumes[1] == Resume(app, ConfirmApproval, Clearing(InProgressBody))
      && 1 in w.sent && w.sent[1] in w.agent.attempts && SentBy(w, 1) == p.terms
      && app !in Next(w, Clear(1), h).store
  {
    var first := FirstResume(app, p, h);
    var sent := SecondSends(first, app, p, h);
    SecondReceives(app, p, h);
    var answered := SecondAt(app, p, h, Clearing(InProgressBody), Done(Refused(InProgressError)));
    OneMoreMove(sent, Receive(1), h, SecondAt(app, p, h, Waiting(1), Done(Refused(InProgressError))), answered);
    var w := answered.(store := answered.store[app := newer], saved := answered.saved + {newer});
    OneMoreMove(sent + [Receive(1)], Save(app, newer), h, answered, w);
    assert History(sent + [Receive(1)] + [Save(app, newer)], h) == w;
    assert app !in Next(w, Clear(1), h).store;
  }
}
