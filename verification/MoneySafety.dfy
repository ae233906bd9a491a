/** What every run of the disbursement protocol guarantees, whatever the interleaving, the crashes and the errors. */
module MoneySafety {
  import opened Wrappers
  import opened Workflow
  import opened Idempotency
  import opened Protocol

  function Reach(actions: seq<Action>, h: Request -> string): System {
    Run(START, actions, h)
  }

  lemma ReachableInv(actions: seq<Action>, h: Request -> string)
    ensures Inv(Reach(actions, h), h)
  {
    RunKeepsInv(START, actions, h);
  }

  /** At-most-once money: no application is paid twice, and what is paid is the amount of a submitted request
      for that application whose hash the row stores, whose terms are complete and which has a schedule. */
  lemma AtMostOneTransfer(actions: seq<Action>, h: Request -> string)
    ensures var s := Reach(actions, h);
            && (forall i, j :: 0 <= i < j < |s.transfers| ==>
                  s.transfers[i].applicationId != s.transfers[j].applicationId)
            && (forall k :: 0 <= k < |s.transfers| ==>
                  && s.transfers[k].attempt in s.attempts && s.transfers[k].applicationId in s.rows
                  && var r := s.attempts[s.transfers[k].attempt].request;
                     && r.applicationId == s.transfers[k].applicationId
                     && s.transfers[k].amount == r.disbursementAmount && Payable(r)
                     && s.rows[r.applicationId].requestHash == h(r))
  {
    ReachableInv(actions, h);
    var s := Reach(actions, h);
    forall k | 0 <= k < |s.transfers| ensures GoodTransfer(s, s.transfers[k]) && s.transfers[k].applicationId in s.rows
                                              && OwnedRow(s, s.transfers[k].applicationId, h)
    {
    }
  }

  ghost predicate Injective(h: Request -> string) {
    forall a, b :: h(a) == h(b) ==> a == b
  }

  /** Reply agreement: all successful replies for one application carry the same receipt, the one its completed row
      stores, and answer requests with the stored hash (so the same request, if the hash is injective). The receipt
      names a transaction exactly when money left for the application. */
  lemma RepliesAgree(actions: seq<Action>, h: Request -> string, i: nat, j: nat)
    requires var s := Reach(actions, h);
             && i in s.attempts && s.attempts[i].pc.Done? && s.attempts[i].pc.outcome.Replied?
             && j in s.attempts && s.attempts[j].pc.Done? && s.attempts[j].pc.outcome.Replied?
             && s.attempts[i].request.applicationId == s.attempts[j].request.applicationId
    ensures var s := Reach(actions, h);
            var app := s.attempts[i].request.applicationId;
            && s.attempts[i].pc == s.attempts[j].pc
            && h(s.attempts[i].request) == h(s.attempts[j].request)
            && (Injective(h) ==> s.attempts[i].request == s.attempts[j].request)
            && app in s.rows && s.rows[app].status == COMPLETED
            && s.rows[app].payload == s.attempts[i].pc.outcome.payload
            && s.rows[app].payload.Some? && s.rows[app].payload.value.applicationId == app
            && (s.rows[app].payload.value.transactionId.Some?
                <==> exists k :: 0 <= k < |s.transfers| && s.transfers[k].applicationId == app)
  {
    ReachableInv(actions, h);
    var s := Reach(actions, h);
    var app := s.attempts[i].request.applicationId;
    assert GoodAttempt(s, i, h) && GoodAttempt(s, j, h);
    assert OwnedRow(s, app, h);
    forall k | 0 <= k < |s.transfers| ensures GoodTransfer(s, s.transfers[k]) {
    }
  }

  /** The only moves of a row: absent, PROCESSING, then COMPLETED or FAILED for good, under one hash. */
  predicate Forward(before: Option<Row>, after: Option<Row>) {
    || before == after
    || (before.None? && after.Some? && after.value.status == PROCESSING && after.value.payload == None)
    || (before.Some? && before.value.status == PROCESSING && after.Some?
        && after.value.requestHash == before.value.requestHash)
  }

  lemma RowsMoveForward(s: System, a: Action, h: Request -> string, app: string)
    requires Inv(s, h)
    ensures Forward(Lookup(s.rows, app), Lookup(Step(s, a, h).rows, app))
  {
    if (a.Advance? || a.Crash?) && a.id in s.attempts {
      var mine := s.attempts[a.id].request.applicationId;
      assert GoodAttempt(s, a.id, h);
      assert mine in s.rows ==> OwnedRow(s, mine, h);
    }
  }

  predicate PaidFor(s: System, app: string) {
    exists k :: 0 <= k < |s.transfers| && s.transfers[k].applicationId == app
  }

  predicate SucceededFor(a: Attempt, app: string) {
    a.pc.Done? && a.pc.outcome.Replied? && a.request.applicationId == app
  }

  predicate Settled(s: System, app: string) {
    app in s.rows && s.rows[app].status != PROCESSING
  }

  /** Once settled, a row never changes and no money leaves for its application. In particular a FAILED row is final:
      no retry is ever paid or answered. */
  lemma SettledStep(s: System, a: Action, h: Request -> string, app: string)
    requires Inv(s, h) && Settled(s, app)
    ensures var s' := Step(s, a, h);
            Settled(s', app) && s'.rows[app] == s.rows[app] && (PaidFor(s', app) <==> PaidFor(s, app))
  {
    RowsMoveForward(s, a, h, app);
    var s' := Step(s, a, h);
    if a.Advance? && a.id in s.attempts {
      assert GoodAttempt(s, a.id, h);
      var mine := s.attempts[a.id].request.applicationId;
      assert mine in s.rows ==> OwnedRow(s, mine, h);
    }
    assert forall k :: 0 <= k < |s.transfers| ==> s'.transfers[k] == s.transfers[k];
  }

  lemma {:induction false} SettledForGood(s: System, actions: seq<Action>, h: Request -> string, app: string)
    requires Inv(s, h) && Settled(s, app)
    ensures var s' := Run(s, actions, h);
            && Settled(s', app) && s'.rows[app] == s.rows[app] && (PaidFor(s', app) <==> PaidFor(s, app))
            && (s.rows[app].status == ROW_FAILED ==>
                  forall id :: id in s'.attempts ==> !SucceededFor(s'.attempts[id], app))
  {
    RunKeepsInv(s, actions, h);
    var s' := Run(s, actions, h);
    if actions != [] {
      var before := actions[..|actions| - 1];
      SettledForGood(s, before, h, app);
      RunKeepsInv(s, before, h);
      SettledStep(Run(s, before, h), actions[|actions| - 1], h, app);
    }
    forall id | id in s'.attempts ensures GoodAttempt(s', id, h) {
    }
  }

  /** Attempt 0 alone, in possession of its row. */
  function Solo(r: Request, row: Row, pc: Pc, transfers: seq<Transfer>): System {
    System(map[r.applicationId := row], map[0 := Attempt(r, pc)], transfers, map[r.applicationId := 0])
  }

  lemma OneMore(actions: seq<Action>, a: Action, h: Request -> string, s: System, s': System)
    requires Reach(actions, h) == s && Step(s, a, h) == s'
    ensures Reach(actions + [a], h) == s'
  {
    RunAppend(START, actions, a, h);
  }

  lemma SoloStarts(r: Request, reference: string, h: Request -> string) returns (actions: seq<Action>)
    ensures Reach(actions, h)
         == Solo(r, Row(h(r), PROCESSING, None), Working(ValidateDecisionNode, InitialState(r)), [])
  {
    var go := Advance(0, true, reference);
    var submitted := System(map[], map[0 := Attempt(r, Reading)], [], map[]);
    var read := System(map[], map[0 := Attempt(r, Creating)], [], map[]);
    OneMore([], Submit(0, r), h, START, submitted);
    OneMore([] + [Submit(0, r)], go, h, submitted, read);
    actions := [] + [Submit(0, r)] + [go] + [go];
    OneMore([] + [Submit(0, r)] + [go], go, h, read,
            Solo(r, Row(h(r), PROCESSING, None), Working(ValidateDecisionNode, InitialState(r)), []));
  }

  lemma SoloWorks(r: Request, row: Row, node: Node, state: State, reference: string, h: Request -> string)
    requires node != End && RunNode(node, state, reference).Success?
    ensures var state' := RunNode(node, state, reference).value;
            Step(Solo(r, row, Working(node, state), []), Advance(0, true, reference), h)
            == Solo(r, row, Working(NextNode(node, state'), state'), TransfersOf(0, node, state, reference))
  {
    assert [] + TransfersOf(0, node, state, reference) == TransfersOf(0, node, state, reference);
  }

  lemma SoloFails(r: Request, row: Row, node: Node, state: State, transfers: seq<Transfer>, reference: string,
                  h: Request -> string)
    ensures var failing := Step(Solo(r, row, Working(node, state), transfers), Advance(0, false, reference), h);
            && failing == Solo(r, row, Failing, transfers)
            && Step(failing, Advance(0, true, reference), h)
               == Solo(r, row.(status := ROW_FAILED), Replying(Refused(ExecutionError)), transfers)
  {
  }

  lemma UpToTheTransfer(r: Request, reference: string, h: Request -> string)
    returns (actions: seq<Action>, state: State)
    requires Accepted(r) && Scheduled(r)
    ensures CarriesRequest(state, r)
    ensures Reach(actions, h) == Solo(r, Row(h(r), PROCESSING, None), Working(ExecuteTransferNode, state), [])
  {
    var go, row := Advance(0, true, reference), Row(h(r), PROCESSING, None);
    var started := SoloStarts(r, reference, h);
    var validated := AfterValidation(InitialState(r));
    SoloWorks(r, row, ValidateDecisionNode, InitialState(r), reference, h);
    OneMore(started, go, h, Solo(r, row, Working(ValidateDecisionNode, InitialState(r)), []),
            Solo(r, row, Working(GenerateScheduleNode, validated), []));
    state := AfterSchedule(validated).value;
    SoloWorks(r, row, GenerateScheduleNode, validated, reference, h);
    OneMore(started + [go], go, h, Solo(r, row, Working(GenerateScheduleNode, validated), []),
            Solo(r, row, Working(ExecuteTransferNode, state), []));
    actions := started + [go] + [go];
  }

  lemma FailsOncePaid(r: Request, reference: string, h: Request -> string)
    returns (actions: seq<Action>, final: System)
    requires Payable(r)
    ensures Reach(actions, h) == final
    ensures final == Solo(r, Row(h(r), ROW_FAILED, None), Replying(Refused(ExecutionError)),
                          [Transfer(0, r.applicationId, r.disbursementAmount)])
  {
    var go, fail := Advance(0, true, reference), Advance(0, false, reference);
    var row := Row(h(r), PROCESSING, None);
    var before, state := UpToTheTransfer(r, reference, h);
    var state' := AfterTransfer(state, reference);
    var paid := [Transfer(0, r.applicationId, r.disbursementAmount)];
    SoloWorks(r, row, ExecuteTransferNode, state, reference, h);
    OneMore(before, go, h, Solo(r, row, Working(ExecuteTransferNode, state), []),
            Solo(r, row, Working(GenerateReceiptNode, state'), paid));
    SoloFails(r, row, GenerateReceiptNode, state', paid, reference, h);
    OneMore(before + [go], fail, h, Solo(r, row, Working(GenerateReceiptNode, state'), paid),
            Solo(r, row, Failing, paid));
    final := Solo(r, row.(status := ROW_FAILED), Replying(Refused(ExecutionError)), paid);
    OneMore(before + [go] + [fail], go, h, Solo(r, row, Failing, paid), final);
    actions := before + [go] + [fail] + [go];
  }

  predicate PaidAndFailed(s: System, r: Request) {
    && r.applicationId in s.rows && s.rows[r.applicationId].status == ROW_FAILED
    && exists k :: 0 <= k < |s.transfers| && s.transfers[k].attempt in s.attempts
                   && s.attempts[s.transfers[k].attempt].request == r
  }

  /** A FAILED row may stand for money that has left, through an error behind the transfer: it can come to that for a
      request if and only if its terms are complete, its amount is positive and its schedule can be made. */
  lemma PaidYetFailedIff(r: Request, h: Request -> string)
    ensures (exists actions :: PaidAndFailed(Reach(actions, h), r)) <==> Payable(r)
  {
    if Payable(r) {
      var actions, s := FailsOncePaid(r, "", h);
      assert s.attempts[s.transfers[0].attempt].request == r;
      assert PaidAndFailed(Reach(actions, h), r);
    }
    if exists actions :: PaidAndFailed(Reach(actions, h), r) {
      var actions :| PaidAndFailed(Reach(actions, h), r);
      AtMostOneTransfer(actions, h);
    }
  }

  lemma RunAppend(s: System, actions: seq<Action>, a: Action, h: Request -> string)
    ensures Run(s, actions + [a], h) == Step(Run(s, actions, h), a, h)
  {
    assert (actions + [a])[..|actions|] == actions;
  }

  predicate Ended(pc: Pc) {
    pc.Done? || pc.Crashed?
  }

  /** What one action leaves alone: requests, finished attempts, and the payments already made. */
  predicate Grows(s: System, s': System) {
    && (forall id :: id in s.attempts ==>
          && id in s'.attempts && s'.attempts[id].request == s.attempts[id].request
          && (Ended(s.attempts[id].pc) ==> s'.attempts[id] == s.attempts[id]))
    && (s'.transfers == s.transfers ||
        (s'.transfers != [] && s'.transfers[..|s'.transfers| - 1] == s.transfers
         && var last := s'.transfers[|s'.transfers| - 1].attempt;
            last in s.attempts && !Ended(s.attempts[last].pc)))
  }

  lemma MoveGrows(s: System, s': System, id: nat, pc: Pc, more: seq<Transfer>)
    requires id in s.attempts && !Ended(s.attempts[id].pc)
    requires s'.attempts == Goto(s, id, pc).attempts && s'.transfers == s.transfers + more
    requires |more| <= 1 && forall k :: 0 <= k < |more| ==> more[k].attempt == id
    ensures Grows(s, s')
  {
  }

  lemma AdvanceGrows(s: System, id: nat, reference: string, h: Request -> string)
    requires id in s.attempts
    ensures Grows(s, AdvanceStep(s, id, reference, h))
    ensures AdvanceStep(s, id, reference, h).attempts.Keys == s.attempts.Keys
  {
    var s' := AdvanceStep(s, id, reference, h);
    if !Ended(s.attempts[id].pc) {
      var more := match s.attempts[id].pc
        case Working(node, state) =>
          if node != End && RunNode(node, state, reference).Success?
          then TransfersOf(id, node, state, reference) else []
        case _ => [];
      assert s'.transfers == s.transfers + more;
      assert s'.attempts == Goto(s, id, s'.attempts[id].pc).attempts;
      MoveGrows(s, s', id, s'.attempts[id].pc, more);
    }
  }

  lemma RaiseGrows(s: System, id: nat)
    requires id in s.attempts
    ensures Grows(s, RaiseStep(s, id)) && RaiseStep(s, id).attempts.Keys == s.attempts.Keys
  {
    var s' := RaiseStep(s, id);
    if !Ended(s.attempts[id].pc) {
      assert s'.attempts == Goto(s, id, s'.attempts[id].pc).attempts;
      MoveGrows(s, s', id, s'.attempts[id].pc, []);
    }
  }

  lemma StepGrows(s: System, a: Action, h: Request -> string)
    ensures Grows(s, Step(s, a, h))
    ensures Step(s, a, h).attempts.Keys == s.attempts.Keys + (if a.Submit? then {a.id} else {})
  {
    match a
    case Submit(_, _) =>
    case Advance(id, ok, reference) =>
      if id in s.attempts {
        if ok {
          AdvanceGrows(s, id, reference, h);
        } else {
          RaiseGrows(s, id);
        }
      }
    case Crash(id) =>
      if id in s.attempts && !s.attempts[id].pc.Done? {
        CrashGrows(s, id);
      }
  }

  lemma CrashGrows(s: System, id: nat)
    requires id in s.attempts && !s.attempts[id].pc.Done?
    ensures Grows(s, Goto(s, id, Crashed)) && Goto(s, id, Crashed).attempts.Keys == s.attempts.Keys
  {
    if !s.attempts[id].pc.Crashed? {
      MoveGrows(s, Goto(s, id, Crashed), id, Crashed, []);
    } else {
      assert Goto(s, id, Crashed).attempts == s.attempts;
    }
  }
}
