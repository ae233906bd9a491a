/** What a cancel is worth: exactly when money can still leave on an application's behalf. */
module Cancellation {
  import opened Wrappers
  import opened Workflow
  import opened Idempotency
  import opened Protocol
  import opened MoneySafety
  import opened Prospects
  import opened Orchestrator

  predicate Resaves(e: Move, app: string) {
    e.Save? && e.applicationId == app
  }

  predicate NeverResaves(later: seq<Move>, app: string) {
    forall k :: 0 <= k < |later| ==> !Resaves(later[k], app)
  }

  /** A payment made on app's behalf. */
  predicate PaidOnBehalf(w: World, app: string, t: Transfer) {
    t in w.agent.transfers && t.attempt in w.origin && w.origin[t.attempt] == app
  }

  ghost predicate SamePayments(w: World, w': World, app: string) {
    forall t :: PaidOnBehalf(w', app, t) <==> PaidOnBehalf(w, app, t)
  }

  predicate AttemptExposed(w: World, app: string) {
    exists id :: id in w.origin && w.origin[id] == app && CanPay(w.agent, id)
  }

  /** The paused state asks, in some way of resuming it, for a request that pays under a free key. */
  predicate ResumePays(p: Paused, kind: Kind, rows: Table) {
    && ResumeRequest(p, kind).Some? && Payable(ResumeRequest(p, kind).value)
    && ResumeRequest(p, kind).value.applicationId !in rows
  }

  ghost predicate PauseExposed(w: World, app: string) {
    app in w.store && exists kind :: ResumePays(w.store[app], kind, w.agent.rows)
  }

  /** Money can still leave on app's behalf: by an attempt under way, or by resuming the pause. */
  ghost predicate Exposed(w: World, app: string) {
    AttemptExposed(w, app) || PauseExposed(w, app)
  }

  ghost predicate Idle(w: World, app: string) {
    !Exposed(w, app)
  }

  ghost predicate WorldInv(w: World, h: Request -> string) {
    Inv(w.agent, h) && w.agent.attempts.Keys == w.origin.Keys
  }

  lemma HistoryInv(events: seq<Move>, h: Request -> string)
    ensures WorldInv(History(events, h), h)
  {
    OnlyAuthorizedRequests(events, h);
    AgentRuns(events, h);
    ReachableInv(AgentActions(events, h), h);
  }

  lemma NextKeepsWorldInv(w: World, e: Move, h: Request -> string)
    requires WorldInv(w, h)
    ensures WorldInv(Next(w, e, h), h)
  {
    NextEvolves(w, e, h);
    NextForTheAgent(w, e, h);
    if Seen(w, e) != [] {
      StepKeepsInv(w.agent, Seen(w, e)[0], h);
    }
  }

  // ---- An idle application stays idle and unpaid -----------------------------------------------

  lemma NextStaysOut(w: World, e: Move, h: Request -> string, id: nat)
    requires Inv(w.agent, h) && id in w.agent.attempts && !CanPay(w.agent, id)
    ensures StaysOut(w.agent, Next(w, e, h).agent, id)
  {
    NextForTheAgent(w, e, h);
    if Seen(w, e) != [] {
      StepStaysOut(w.agent, Seen(w, e)[0], h, id);
    }
  }

  lemma NextKeepsRows(w: World, e: Move, h: Request -> string, key: string)
    requires Inv(w.agent, h) && key in w.agent.rows
    ensures key in Next(w, e, h).agent.rows
  {
    NextForTheAgent(w, e, h);
    if Seen(w, e) != [] {
      RowsStay(w.agent, Seen(w, e)[0], h, key);
    }
  }

  lemma StoreShrinks(w: World, e: Move, h: Request -> string, app: string)
    requires !Resaves(e, app)
    ensures app in Next(w, e, h).store ==> app in w.store && Next(w, e, h).store[app] == w.store[app]
  {
  }

  lemma PauseStaysOut(w: World, e: Move, h: Request -> string, app: string)
    requires WorldInv(w, h) && !PauseExposed(w, app) && !Resaves(e, app)
    ensures !PauseExposed(Next(w, e, h), app)
  {
    var w' := Next(w, e, h);
    StoreShrinks(w, e, h, app);
    if app in w'.store {
      forall kind ensures !ResumePays(w'.store[app], kind, w'.agent.rows) {
        assert !ResumePays(w.store[app], kind, w.agent.rows);
        var asked := ResumeRequest(w.store[app], kind);
        if asked.Some? && asked.value.applicationId in w.agent.rows {
          NextKeepsRows(w, e, h, asked.value.applicationId);
        }
      }
    }
  }

  lemma NewcomerStaysOut(w: World, e: Move, h: Request -> string, app: string, id: nat)
    requires WorldInv(w, h) && Idle(w, app)
    requires id in Next(w, e, h).origin && id !in w.origin && Next(w, e, h).origin[id] == app
    ensures !CanPay(Next(w, e, h).agent, id)
  {
    var w' := Next(w, e, h);
    NextEvolves(w, e, h);
    var kind :| ResumeRequest(w.store[app], kind) == Some(w'.agent.attempts[id].request);
    assert !ResumePays(w.store[app], kind, w.agent.rows);
    if Payable(w'.agent.attempts[id].request) {
      NextKeepsRows(w, e, h, w'.agent.attempts[id].request.applicationId);
    }
  }

  lemma IdleNext(w: World, e: Move, h: Request -> string, app: string)
    requires WorldInv(w, h) && Idle(w, app) && !Resaves(e, app)
    ensures Idle(Next(w, e, h), app)
  {
    var w' := Next(w, e, h);
    PauseStaysOut(w, e, h, app);
    forall id | id in w'.origin && w'.origin[id] == app ensures !CanPay(w'.agent, id) {
      if id in w.origin {
        NextEvolves(w, e, h);
        NextStaysOut(w, e, h, id);
      } else {
        NewcomerStaysOut(w, e, h, app, id);
      }
    }
  }

  lemma NoSecondPayment(s: System, h: Request -> string, before: seq<Transfer>, t: Transfer)
    requires Inv(s, h) && s.transfers == before + [t]
    ensures Paid(s.transfers, t.attempt) && !Paid(before, t.attempt)
  {
    assert s.transfers[|before|] == t;
    assert forall k :: 0 <= k < |before| ==> s.transfers[k] == before[k];
  }

  lemma NewPaymentIsLast(s: System, s': System, t: Transfer)
    requires Grows(s, s') && t in s'.transfers && t !in s.transfers
    ensures s'.transfers == s.transfers + [t] && t.attempt in s.attempts
  {
    var before := s'.transfers[..|s'.transfers| - 1];
    assert s'.transfers == before + [s'.transfers[|before|]];
  }

  lemma OldPaymentIsKnown(w: World, h: Request -> string, t: Transfer)
    requires WorldInv(w, h) && t in w.agent.transfers
    ensures t.attempt in w.origin
  {
    var k :| 0 <= k < |w.agent.transfers| && w.agent.transfers[k] == t;
    assert GoodTransfer(w.agent, w.agent.transfers[k]);
  }

  lemma IdleUnpaid(w: World, e: Move, h: Request -> string, app: string, t: Transfer)
    requires WorldInv(w, h) && Idle(w, app) && PaidOnBehalf(Next(w, e, h), app, t)
    ensures PaidOnBehalf(w, app, t)
  {
    NextEvolves(w, e, h);
    NextKeepsWorldInv(w, e, h);
    if t in w.agent.transfers {
      OldPaymentIsKnown(w, h, t);
    } else {
      NewPaymentIsLast(w.agent, Next(w, e, h).agent, t);
      NextStaysOut(w, e, h, t.attempt);
      NoSecondPayment(Next(w, e, h).agent, h, w.agent.transfers, t);
    }
  }

  lemma PaymentsStay(w: World, e: Move, h: Request -> string, app: string, t: Transfer)
    requires WorldInv(w, h) && PaidOnBehalf(w, app, t)
    ensures PaidOnBehalf(Next(w, e, h), app, t)
  {
    NextEvolves(w, e, h);
    var w' := Next(w, e, h);
    var k :| 0 <= k < |w.agent.transfers| && w.agent.transfers[k] == t;
    assert w'.agent.transfers[k] == t;
  }

  lemma IdleNextPaysNothing(w: World, e: Move, h: Request -> string, app: string)
    requires WorldInv(w, h) && Idle(w, app)
    ensures SamePayments(w, Next(w, e, h), app)
  {
    forall t ensures PaidOnBehalf(Next(w, e, h), app, t) <==> PaidOnBehalf(w, app, t) {
      if PaidOnBehalf(Next(w, e, h), app, t) {
        IdleUnpaid(w, e, h, app, t);
      }
      if PaidOnBehalf(w, app, t) {
        PaymentsStay(w, e, h, app, t);
      }
    }
  }

  lemma SameTwice(w: World, w': World, w'': World, app: string)
    requires SamePayments(w, w', app) && SamePayments(w', w'', app)
    ensures SamePayments(w, w'', app)
  {
  }

  lemma {:induction false} IdleContinues(w: World, later: seq<Move>, h: Request -> string, app: string)
    requires WorldInv(w, h) && Idle(w, app) && NeverResaves(later, app)
    ensures WorldInv(Continue(w, later, h), h) && Idle(Continue(w, later, h), app)
    ensures SamePayments(w, Continue(w, later, h), app)
  {
    if later != [] {
      var before, e := later[..|later| - 1], later[|later| - 1];
      IdleContinues(w, before, h, app);
      var w' := Continue(w, before, h);
      NextKeepsWorldInv(w', e, h);
      IdleNext(w', e, h, app);
      IdleNextPaysNothing(w', e, h, app);
      SameTwice(w, w', Continue(w, later, h), app);
    }
  }

  /** From an idle application no money leaves on its behalf until the pipeline pauses it again. */
  lemma IdleStaysUnpaid(events: seq<Move>, later: seq<Move>, h: Request -> string, app: string)
    requires Idle(History(events, h), app) && NeverResaves(later, app)
    ensures Idle(Continue(History(events, h), later, h), app)
    ensures SamePayments(History(events, h), Continue(History(events, h), later, h), app)
  {
    HistoryInv(events, h);
    IdleContinues(History(events, h), later, h, app);
  }

  // ---- An exposed application can be paid ------------------------------------------------------

  /** The agent's actions as moves of the world. */
  function Lifted(actions: seq<Action>): (moves: seq<Move>)
    ensures |moves| == |actions| && forall k :: 0 <= k < |moves| ==> moves[k] == AgentMoves(actions[k])
  {
    if actions == [] then [] else Lifted(actions[..|actions| - 1]) + [AgentMoves(actions[|actions| - 1])]
  }

  lemma {:induction false} LiftedRuns(w: World, actions: seq<Action>, h: Request -> string)
    requires forall k :: 0 <= k < |actions| ==> !actions[k].Submit?
    ensures Continue(w, Lifted(actions), h) == w.(agent := Run(w.agent, actions, h))
  {
    if actions != [] {
      var before := actions[..|actions| - 1];
      LiftedRuns(w, before, h);
      assert Lifted(actions)[..|actions| - 1] == Lifted(before);
    }
  }

  lemma {:induction false} ContinueOn(w: World, a: seq<Move>, b: seq<Move>, h: Request -> string)
    ensures Continue(w, a + b, h) == Continue(Continue(w, a, h), b, h)
  {
    if b == [] {
      assert a + b == a;
    } else {
      ContinueOn(w, a, b[..|b| - 1], h);
      assert (a + b)[..|a + b| - 1] == a + b[..|b| - 1];
    }
  }

  /** A continuation that pays on app's behalf what had not been paid, without a new pause. */
  ghost predicate PaysMore(w: World, later: seq<Move>, app: string, h: Request -> string) {
    NeverResaves(later, app) && exists t :: PaidOnBehalf(Continue(w, later, h), app, t) && !PaidOnBehalf(w, app, t)
  }

  lemma AttemptPays(w: World, h: Request -> string, id: nat) returns (later: seq<Move>, t: Transfer)
    requires WorldInv(w, h) && CanPay(w.agent, id)
    ensures forall app :: NeverResaves(later, app)
    ensures t.attempt == id && t !in w.agent.transfers && id in w.origin
    ensures PaidOnBehalf(Continue(w, later, h), w.origin[id], t)
  {
    var actions := PaysSoon(w.agent, id, h);
    later := Lifted(actions);
    LiftedRuns(w, actions, h);
    t := PaymentOf(w.agent, id);
    StandsWell(w.agent, id, h);
    assert forall k :: 0 <= k < |w.agent.transfers| ==> w.agent.transfers[k].attempt != id;
    assert Continue(w, later, h).agent.transfers[|w.agent.transfers|] == t;
  }

  lemma {:induction false} Unused(s: set<nat>) returns (n: nat)
    ensures forall m :: m in s ==> m < n
    ensures n !in s
  {
    if s == {} {
      n := 0;
    } else {
      var k :| k in s;
      var n' := Unused(s - {k});
      n := if k < n' then n' else k + 1;
      assert forall m :: m in s ==> m == k || m in s - {k};
    }
  }

  /** A new resume of the pause, up to its request. */
  lemma PauseLeadsToAttempt(w: World, app: string, kind: Kind, h: Request -> string)
    returns (later: seq<Move>, attempt: nat)
    requires WorldInv(w, h) && app in w.store && ResumePays(w.store[app], kind, w.agent.rows)
    ensures forall a :: NeverResaves(later, a)
    ensures var w' := Continue(w, later, h);
            && WorldInv(w', h) && attempt !in w.origin && attempt in w'.origin && w'.origin[attempt] == app
            && CanPay(w'.agent, attempt) && w'.agent.transfers == w.agent.transfers
  {
    var id := Unused(w.resumes.Keys);
    attempt := Unused(w.agent.attempts.Keys);
    var begin, look := Begin(id, app, kind), Look(id, attempt);
    later := [begin] + [look];
    ContinueOn(w, [begin], [look], h);
    ContinueOne(w, begin, h);
    var begun := Next(w, begin, h);
    ContinueOne(begun, look, h);
    NextKeepsWorldInv(w, begin, h);
    NextKeepsWorldInv(begun, look, h);
    LookSubmits(begun, id, attempt, h);
  }

  lemma ContinueOne(w: World, e: Move, h: Request -> string)
    ensures Continue(w, [e], h) == Next(w, e, h)
  {
    assert [e][..0] == [];
  }

  lemma LookSubmits(w: World, id: nat, attempt: nat, h: Request -> string)
    requires id in w.resumes && w.resumes[id].pc == Looking && attempt !in w.agent.attempts
    requires w.resumes[id].applicationId in w.store
    requires ResumePays(w.store[w.resumes[id].applicationId], w.resumes[id].kind, w.agent.rows)
    ensures var w' := Next(w, Look(id, attempt), h);
            && attempt in w'.origin && w'.origin[attempt] == w.resumes[id].applicationId
            && CanPay(w'.agent, attempt) && w'.agent.transfers == w.agent.transfers
  {
  }

  lemma ExposedPays(w: World, app: string, h: Request -> string) returns (later: seq<Move>)
    requires WorldInv(w, h) && Exposed(w, app)
    ensures PaysMore(w, later, app, h)
  {
    var t;
    if AttemptExposed(w, app) {
      var id :| id in w.origin && w.origin[id] == app && CanPay(w.agent, id);
      later, t := AttemptPays(w, h, id);
    } else {
      var kind :| ResumePays(w.store[app], kind, w.agent.rows);
      var first, id := PauseLeadsToAttempt(w, app, kind, h);
      var second;
      second, t := AttemptPays(Continue(w, first, h), h, id);
      later := first + second;
      ContinueOn(w, first, second, h);
      assert NeverResaves(first, app) && NeverResaves(second, app);
    }
    assert PaidOnBehalf(Continue(w, later, h), app, t) && !PaidOnBehalf(w, app, t);
  }

  /** In every history: money can still leave on an application's behalf before its next pause if and only if an attempt
      under way can be paid, or the pause can be resumed into one that can. */
  lemma PaidAgainIff(events: seq<Move>, app: string, h: Request -> string)
    ensures (exists later :: PaysMore(History(events, h), later, app, h)) <==> Exposed(History(events, h), app)
  {
    var w := History(events, h);
    HistoryInv(events, h);
    if Exposed(w, app) {
      var later := ExposedPays(w, app, h);
    } else {
      forall later ensures !PaysMore(w, later, app, h) {
        if NeverResaves(later, app) {
          IdleContinues(w, later, h, app);
        }
      }
    }
  }

  /** The pause is an approval whose terms pay under a free key. */
  predicate ApprovalExposed(w: World, app: string) {
    && app in w.store && w.store[app].phase == AwaitingApprovalConfirmation && Payable(w.store[app].terms)
    && w.store[app].terms.applicationId !in w.agent.rows
  }

  lemma PauseExposedIff(events: seq<Move>, app: string, h: Request -> string)
    requires PipelineSaves(events)
    ensures PauseExposed(History(events, h), app) <==> ApprovalExposed(History(events, h), app)
  {
    var w := History(events, h);
    SavedAreUnreadable(events, h);
    OnlyAuthorizedRequests(events, h);
    if app in w.store {
      assert OffersUnreadable(w.store[app]);
      assert ApprovalExposed(w, app) ==> ResumePays(w.store[app], ConfirmApproval, w.agent.rows);
    }
  }

  /** Where every pause is one the pipeline saves, only an approval can lead to a payment. */
  lemma OnlyApprovalsArePaidIff(events: seq<Move>, app: string, h: Request -> string)
    requires PipelineSaves(events)
    ensures (exists later :: PaysMore(History(events, h), later, app, h))
            <==> AttemptExposed(History(events, h), app) || ApprovalExposed(History(events, h), app)
  {
    PaidAgainIff(events, app, h);
    PauseExposedIff(events, app, h);
  }

  /** A cancel stops all payments if and only if no attempt under way can be paid. */
  lemma CancelStopsPaymentsIff(events: seq<Move>, app: string, h: Request -> string)
    ensures (forall later :: !PaysMore(History(events + [Cancel(app)], h), later, app, h))
            <==> !AttemptExposed(History(events, h), app)
  {
    assert (events + [Cancel(app)])[..|events|] == events;
    PaidAgainIff(events + [Cancel(app)], app, h);
  }

  // ---- It happens: a cancel behind a resume ----------------------------------------------------

  lemma OneMoreMove(events: seq<Move>, e: Move, h: Request -> string, w: World, w': World)
    requires History(events, h) == w && Next(w, e, h) == w'
    ensures History(events + [e], h) == w'
  {
    assert (events + [e])[..|events|] == events;
  }

  /** A resume waits for attempt 0, which is about to read or to create its row. */
  function FirstAt(app: string, p: Paused, attempt: Pc): World {
    World(map[app := p], map[0 := Resume(app, ConfirmApproval, Waiting(0))],
          System(map[], map[0 := Attempt(p.terms, attempt)], [], map[]), {p}, map[0 := app], map[0 := 0])
  }

  /** The attempt has just been given its row. */
  function FirstUnderWay(app: string, p: Paused, h: Request -> string): World {
    FirstAt(app, p, Creating)
    .(agent := System(map[p.terms.applicationId := Row(h(p.terms), PROCESSING, None)],
                      map[0 := Attempt(p.terms, Working(ValidateDecisionNode, InitialState(p.terms)))],
                      [], map[p.terms.applicationId := 0]))
  }

  lemma FirstReads(app: string, p: Paused, h: Request -> string)
    ensures Next(FirstAt(app, p, Reading), AgentMoves(Go(0)), h) == FirstAt(app, p, Creating)
    ensures Next(FirstAt(app, p, Creating), AgentMoves(Go(0)), h) == FirstUnderWay(app, p, h)
  {
  }

  lemma FirstLooks(app: string, p: Paused, h: Request -> string, begun: World)
    requires p.phase == AwaitingApprovalConfirmation
    requires begun == World(map[app := p], map[0 := Resume(app, ConfirmApproval, Looking)], START, {p}, map[], map[])
    ensures Next(begun, Look(0, 0), h) == FirstAt(app, p, Reading)
  {
  }

  lemma FirstResume(app: string, p: Paused, h: Request -> string) returns (events: seq<Move>)
    requires p.phase == AwaitingApprovalConfirmation
    ensures History(events, h) == FirstUnderWay(app, p, h)
  {
    var saved := World(map[app := p], map[], START, {p}, map[], map[]);
    var begun := saved.(resumes := map[0 := Resume(app, ConfirmApproval, Looking)]);
    OneMoreMove([], Save(app, p), h, NEW_WORLD, saved);
    var e1 := [] + [Save(app, p)];
    OneMoreMove(e1, Begin(0, app, ConfirmApproval), h, saved, begun);
    var e2 := e1 + [Begin(0, app, ConfirmApproval)];
    FirstLooks(app, p, h, begun);
    OneMoreMove(e2, Look(0, 0), h, begun, FirstAt(app, p, Reading));
    FirstReads(app, p, h);
    OneMoreMove(e2 + [Look(0, 0)], AgentMoves(Go(0)), h, FirstAt(app, p, Reading), FirstAt(app, p, Creating));
    OneMoreMove(e2 + [Look(0, 0)] + [AgentMoves(Go(0))], AgentMoves(Go(0)), h,
                FirstAt(app, p, Creating), FirstUnderWay(app, p, h));
    events := e2 + [Look(0, 0)] + [AgentMoves(Go(0))] + [AgentMoves(Go(0))];
  }

  /** It can happen to every approved application whose terms pay: the client cancels while a resume is under way, the
      pause is forgotten, and the money still leaves. */
  lemma CancelDoesNotRecall(app: string, p: Paused, h: Request -> string)
    requires p.phase == AwaitingApprovalConfirmation && Payable(p.terms)
    ensures exists events, later ::
      && app in History(events, h).store && app !in History(events + [Cancel(app)], h).store
      && PaysMore(History(events + [Cancel(app)], h), later, app, h)
  {
    var events := FirstResume(app, p, h);
    assert CanPay(History(events, h).agent, 0);
    assert AttemptExposed(History(events, h), app);
    CancelStopsPaymentsIff(events, app, h);
    var later :| PaysMore(History(events + [Cancel(app)], h), later, app, h);
    OneMoreMove(events, Cancel(app), h, History(events, h), Next(History(events, h), Cancel(app), h));
  }

  // ---- What "in progress" is worth --------------------------------------------------------------

  /** The answer DISBURSED to a request in progress. */
  predicate ToldInProgress(w: World, id: nat) {
    ToldDisbursed(w, id) && w.resumes[id].pc.answer.body.InProgressBody?
  }

  lemma InProgressHasARow(events: seq<Move>, h: Request -> string, id: nat)
    requires ToldInProgress(History(events, h), id)
    ensures var w := History(events, h);
            && WorldInv(w, h) && id in w.sent && w.sent[id] in w.agent.attempts
            && SentBy(w, id).applicationId in w.agent.rows
  {
    var w := History(events, h);
    BodiesComeFromReplies(events, h, id);
    HistoryInv(events, h);
    assert GoodAttempt(w.agent, w.sent[id], h);
  }

  /** The row under key and its owner stay, and an owner that cannot pay stays out. */
  predicate KeyStaysOut(w: World, w': World, key: string) {
    && key in w.agent.rows && key in w.agent.owners && key in w'.agent.rows && key in w'.agent.owners
    && w'.agent.owners[key] == w.agent.owners[key] && StaysOut(w.agent, w'.agent, w.agent.owners[key])
  }

  lemma NextKeepsKeyOut(w: World, e: Move, h: Request -> string, key: string)
    requires WorldInv(w, h) && key in w.agent.rows && key in w.agent.owners && w.agent.owners[key] in w.agent.attempts
    requires !CanPay(w.agent, w.agent.owners[key])
    ensures KeyStaysOut(w, Next(w, e, h), key)
  {
    NextKeepsRows(w, e, h, key);
    NextStaysOut(w, e, h, w.agent.owners[key]);
    NextForTheAgent(w, e, h);
    if Seen(w, e) != [] {
      OwnersStay(w.agent, Seen(w, e)[0], h, key);
    }
  }

  lemma {:induction false} KeyIsOut(w: World, later: seq<Move>, h: Request -> string, key: string)
    requires WorldInv(w, h) && key in w.agent.rows && key in w.agent.owners && w.agent.owners[key] in w.agent.attempts
    requires !CanPay(w.agent, w.agent.owners[key])
    ensures WorldInv(Continue(w, later, h), h) && KeyStaysOut(w, Continue(w, later, h), key)
  {
    if later != [] {
      var before, e := later[..|later| - 1], later[|later| - 1];
      KeyIsOut(w, before, h, key);
      NextKeepsWorldInv(Continue(w, before, h), e, h);
      NextKeepsKeyOut(Continue(w, before, h), e, h, key);
    }
  }

  /** The promise made with a 202 is true, or can still come true, if and only if the owner of the key has been paid
      or can be. */
  lemma PromiseComesTrueIff(events: seq<Move>, h: Request -> string, id: nat)
    requires ToldInProgress(History(events, h), id)
    ensures var w := History(events, h);
            && id in w.sent && w.sent[id] in w.agent.attempts
            && var key := SentBy(w, id).applicationId;
               && key in w.agent.owners
               && ((exists later :: PaidFor(Continue(w, later, h).agent, key))
                   <==> PaidFor(w.agent, key) || CanPay(w.agent, w.agent.owners[key]))
  {
    InProgressHasARow(events, h, id);
    var w := History(events, h);
    var key := SentBy(w, id).applicationId;
    PaidForIsOwnersPaid(w.agent, h, key);
    var owner := w.agent.owners[key];
    if PaidFor(w.agent, key) {
      assert Continue(w, [], h) == w;
    } else if CanPay(w.agent, owner) {
      OwnerPays(w, h, key);
    } else {
      forall later ensures !PaidFor(Continue(w, later, h).agent, key) {
        KeyIsOut(w, later, h, key);
        PaidForIsOwnersPaid(Continue(w, later, h).agent, h, key);
      }
    }
  }

  lemma OwnerPays(w: World, h: Request -> string, key: string)
    requires WorldInv(w, h) && key in w.agent.rows && key in w.agent.owners && CanPay(w.agent, w.agent.owners[key])
    ensures exists later :: PaidFor(Continue(w, later, h).agent, key)
  {
    var owner := w.agent.owners[key];
    assert OwnedRow(w.agent, key, h);
    var actions := PaysSoon(w.agent, owner, h);
    var later := Lifted(actions);
    LiftedRuns(w, actions, h);
    assert Continue(w, later, h).agent.transfers[|w.agent.transfers|].applicationId == key;
    assert PaidFor(Continue(w, later, h).agent, key);
  }
}
