/** Concurrent disbursement requests as interleaved atomic steps over one idempotency table and one bank. */
module Protocol {
  import opened Wrappers
  import opened Workflow
  import opened Idempotency

  // ---- The state machine ----------------------------------------------------------------------

  datatype Refusal = ConflictError | InProgressError | StorageError | DuplicateKeyError | ExecutionError

  datatype Outcome = Replied(payload: Option<Receipt>) | Refused(reason: Refusal)

  /** Where one request stands; each step up to the next is atomic. */
  datatype Pc =
    | Reading
    | Creating
    | Working(node: Node, state: State)
    | Saving(receipt: Option<Receipt>)
    | Completing(receipt: Option<Receipt>)
    | Failing
    | Replying(outcome: Outcome)
    | Done(outcome: Outcome)
    | Crashed

  datatype Attempt = Attempt(request: Request, pc: Pc)

  datatype Transfer = Transfer(attempt: nat, applicationId: string, amount: int)

  /** `owners` is bookkeeping for the proofs: the attempt that inserted each row. */
  datatype System = System(
    rows: Table, attempts: map<nat, Attempt>, transfers: seq<Transfer>, owners: map<string, nat>)

  const START := System(map[], map[], [], map[])

  /** `ok` is false when the database call (or node) the step waits for raises, which then has had no effect. */
  datatype Action =
    | Submit(id: nat, request: Request)
    | Advance(id: nat, ok: bool, reference: string)
    | Crash(id: nat)

  function Goto(s: System, id: nat, pc: Pc): System
    requires id in s.attempts
  {
    s.(attempts := s.attempts[id := s.attempts[id].(pc := pc)])
  }

  function ReadStep(s: System, id: nat, h: Request -> string): System
    requires id in s.attempts
  {
    var r := s.attempts[id].request;
    match Resolve(Lookup(s.rows, r.applicationId), h(r))
    case Fresh => Goto(s, id, Creating)
    case Replay(payload) => Goto(s, id, Replying(Replied(payload)))
    case Conflict => Goto(s, id, Replying(Refused(ConflictError)))
    case InProgress => Goto(s, id, Replying(Refused(InProgressError)))
  }

  function CreateStep(s: System, id: nat, h: Request -> string): System
    requires id in s.attempts
  {
    var r := s.attempts[id].request;
    match Inserted(s.rows, r.applicationId, h(r))
    case Failure(_) => Goto(s, id, Replying(Refused(DuplicateKeyError)))
    case Success(rows) =>
      Goto(s, id, Working(ValidateDecisionNode, InitialState(r)))
      .(rows := rows, owners := s.owners[r.applicationId := id])
  }

  /** The gateway call inside the transfer node is the one effect that cannot be undone. */
  function TransfersOf(id: nat, node: Node, state: State, reference: string): seq<Transfer> {
    if node == ExecuteTransferNode && ExecuteFundTransfer(Or(state.disbursementAmount, 0), reference).Success?
    then [Transfer(id, state.applicationId, Or(state.disbursementAmount, 0))]
    else []
  }

  function WorkStep(s: System, id: nat, node: Node, state: State, reference: string): System
    requires id in s.attempts
  {
    if node == End then Goto(s, id, Saving(state.receipt))
    else
      match RunNode(node, state, reference)
      case Failure(_) => Goto(s, id, Failing)
      case Success(state') =>
        Goto(s, id, Working(NextNode(node, state'), state'))
        .(transfers := s.transfers + TransfersOf(id, node, state, reference))
  }

  /** What a raised exception leads to: the failed mark only after the row was created. */
  function RaiseStep(s: System, id: nat): System
    requires id in s.attempts
  {
    match s.attempts[id].pc
    case Working(_, _) => Goto(s, id, Failing)
    case Saving(_) => Goto(s, id, Failing)
    case Completing(_) => Goto(s, id, Failing)
    case Replying(_) => Goto(s, id, Done(Refused(StorageError)))
    case Done(_) => s
    case Crashed => s
    case _ => Goto(s, id, Replying(Refused(StorageError)))
  }

  function AdvanceStep(s: System, id: nat, reference: string, h: Request -> string): System
    requires id in s.attempts
  {
    var applicationId := s.attempts[id].request.applicationId;
    match s.attempts[id].pc
    case Reading => ReadStep(s, id, h)
    case Creating => CreateStep(s, id, h)
    case Working(node, state) => WorkStep(s, id, node, state, reference)
    case Saving(receipt) => Goto(s, id, Completing(receipt))
    case Completing(receipt) =>
      Goto(s, id, Replying(Replied(receipt))).(rows := Completed(s.rows, applicationId, receipt))
    case Failing =>
      Goto(s, id, Replying(Refused(ExecutionError))).(rows := MarkedFailed(s.rows, applicationId))
    case Replying(outcome) => Goto(s, id, Done(outcome))
    case Done(_) => s
    case Crashed => s
  }

  /** An action that does not apply leaves the system as it is. */
  function Step(s: System, a: Action, h: Request -> string): System {
    match a
    case Submit(id, request) =>
      if id in s.attempts then s else s.(attempts := s.attempts[id := Attempt(request, Reading)])
    case Advance(id, ok, reference) =>
      if id !in s.attempts then s
      else if ok then AdvanceStep(s, id, reference, h) else RaiseStep(s, id)
    case Crash(id) =>
      if id !in s.attempts || s.attempts[id].pc.Done? then s else Goto(s, id, Crashed)
  }

  function Run(s: System, actions: seq<Action>, h: Request -> string): System {
    if actions == [] then s else Step(Run(s, actions[..|actions| - 1], h), actions[|actions| - 1], h)
  }

  // ---- The invariant --------------------------------------------------------------------------

  /** Between its insert and its last word on the row, an attempt holds the row. */
  predicate Holds(pc: Pc) {
    pc.Working? || pc.Saving? || pc.Completing? || pc.Failing?
  }

  predicate BeforeTransfer(pc: Pc) {
    pc.Reading? || pc.Creating? ||
    (pc.Working? && (pc.node.ValidateDecisionNode? || pc.node.GenerateScheduleNode? || pc.node.ExecuteTransferNode?))
  }

  predicate Paid(transfers: seq<Transfer>, id: nat) {
    exists k :: 0 <= k < |transfers| && transfers[k].attempt == id
  }

  predicate CarriesRequest(state: State, r: Request) {
    && state.applicationId == r.applicationId && state.disbursementAmount == Some(r.disbursementAmount)
    && state.approvedAmount == Some(r.approvedAmount) && state.tenure == Some(r.tenure) && state.rate == Some(r.rate)
  }

  /** What a request has passed when it stands at a node, and whether it was paid behind the transfer. */
  predicate Passed(node: Node, r: Request, paid: bool) {
    match node
    case ValidateDecisionNode => true
    case GenerateScheduleNode => Accepted(r)
    case ExecuteTransferNode => Accepted(r) && Scheduled(r)
    case GenerateReceiptNode => paid <==> Pays(r)
    case End => paid <==> Pays(r)
  }

  /** A receipt for r that admits a payment exactly when one was made, which is exactly when r pays. */
  predicate Truthful(receipt: Option<Receipt>, r: Request, paid: bool) {
    && receipt.Some? && receipt.value.applicationId == r.applicationId
    && receipt.value.disbursementAmount == r.disbursementAmount
    && (receipt.value.transactionId.Some? <==> paid) && (paid <==> Pays(r))
  }

  predicate Consistent(pc: Pc, r: Request, paid: bool) {
    && (BeforeTransfer(pc) ==> !paid)
    && (pc.Working? ==>
          CarriesRequest(pc.state, r) && (pc.state.transactionId.Some? <==> paid) && Passed(pc.node, r, paid))
    && (pc.Working? && pc.node == End ==> Truthful(pc.state.receipt, r, paid))
    && (pc.Saving? || pc.Completing? ==> Truthful(pc.receipt, r, paid))
  }

  /** The owner of a row, and what its table entry says while the owner works and after. */
  predicate OwnedRow(s: System, applicationId: string, h: Request -> string)
    requires applicationId in s.rows
  {
    && applicationId in s.owners && s.owners[applicationId] in s.attempts
    && var row, owner := s.rows[applicationId], s.attempts[s.owners[applicationId]];
       && owner.request.applicationId == applicationId && row.requestHash == h(owner.request)
       && !owner.pc.Reading? && !owner.pc.Creating?
       && (Holds(owner.pc) ==> row.status == PROCESSING)
       && (row.status == COMPLETED ==> Truthful(row.payload, owner.request, Paid(s.transfers, s.owners[applicationId])))
  }

  predicate GoodAttempt(s: System, id: nat, h: Request -> string)
    requires id in s.attempts
  {
    var a := s.attempts[id];
    && Consistent(a.pc, a.request, Paid(s.transfers, id))
    && (Holds(a.pc) ==> a.request.applicationId in s.rows && a.request.applicationId in s.owners
                        && s.owners[a.request.applicationId] == id)
    && (a.pc.Replying? || a.pc.Done? ==> Answered(s, a.request, a.pc.outcome, h))
  }

  /** A successful reply is what the completed row for that very hash stores; a request in progress has a row. */
  predicate Answered(s: System, r: Request, outcome: Outcome, h: Request -> string) {
    match outcome
    case Replied(payload) => r.applicationId in s.rows && s.rows[r.applicationId] == Row(h(r), COMPLETED, payload)
    case Refused(InProgressError) => r.applicationId in s.rows && s.rows[r.applicationId].requestHash == h(r)
    case Refused(_) => true
  }

  predicate GoodTransfer(s: System, t: Transfer) {
    && t.applicationId in s.rows && t.applicationId in s.owners && s.owners[t.applicationId] == t.attempt
    && t.attempt in s.attempts && s.attempts[t.attempt].request.applicationId == t.applicationId
    && t.amount == s.attempts[t.attempt].request.disbursementAmount && Payable(s.attempts[t.attempt].request)
  }

  predicate Inv(s: System, h: Request -> string) {
    && (forall app :: app in s.rows ==> OwnedRow(s, app, h))
    && (forall id :: id in s.attempts ==> GoodAttempt(s, id, h))
    && (forall k :: 0 <= k < |s.transfers| ==> GoodTransfer(s, s.transfers[k]))
    && (forall i, j :: 0 <= i < j < |s.transfers| ==> s.transfers[i].attempt != s.transfers[j].attempt)
  }

  /** Moving one attempt on, with table and bank untouched. */
  lemma GotoKeepsInv(s: System, id: nat, pc: Pc, h: Request -> string)
    requires Inv(s, h) && id in s.attempts
    requires var a := s.attempts[id];
             && Consistent(pc, a.request, Paid(s.transfers, id))
             && (Holds(pc) ==> Holds(a.pc))
             && (pc.Reading? || pc.Creating? ==> a.pc.Reading? || a.pc.Creating?)
             && (pc.Replying? || pc.Done? ==> Answered(s, a.request, pc.outcome, h))
    ensures Inv(Goto(s, id, pc), h)
  {
    var s' := Goto(s, id, pc);
    forall app | app in s'.rows ensures OwnedRow(s', app, h) {
      assert OwnedRow(s, app, h);
    }
    forall i | i in s'.attempts ensures GoodAttempt(s', i, h) {
      assert GoodAttempt(s, i, h);
    }
    forall k | 0 <= k < |s'.transfers| ensures GoodTransfer(s', s'.transfers[k]) {
      assert GoodTransfer(s, s.transfers[k]);
    }
  }

  lemma SubmitKeepsInv(s: System, id: nat, r: Request, h: Request -> string)
    requires Inv(s, h) && id !in s.attempts
    ensures Inv(s.(attempts := s.attempts[id := Attempt(r, Reading)]), h)
  {
    var s' := s.(attempts := s.attempts[id := Attempt(r, Reading)]);
    forall app | app in s'.rows ensures OwnedRow(s', app, h) {
      assert OwnedRow(s, app, h);
    }
    forall i | i in s'.attempts ensures GoodAttempt(s', i, h) {
      assert i != id ==> GoodAttempt(s, i, h);
      assert i == id ==> forall k :: 0 <= k < |s.transfers| ==> GoodTransfer(s, s.transfers[k]);
    }
    forall k | 0 <= k < |s'.transfers| ensures GoodTransfer(s', s'.transfers[k]) {
      assert GoodTransfer(s, s.transfers[k]);
    }
  }

  lemma CreateKeepsInv(s: System, id: nat, h: Request -> string)
    requires Inv(s, h) && id in s.attempts && s.attempts[id].pc.Creating?
    ensures Inv(CreateStep(s, id, h), h)
  {
    var r := s.attempts[id].request;
    assert GoodAttempt(s, id, h);
    if r.applicationId in s.rows {
      GotoKeepsInv(s, id, Replying(Refused(DuplicateKeyError)), h);
    } else {
      var s' := CreateStep(s, id, h);
      forall app | app in s'.rows ensures OwnedRow(s', app, h) {
        assert app != r.applicationId ==> OwnedRow(s, app, h);
      }
      forall i | i in s'.attempts ensures GoodAttempt(s', i, h) {
        assert GoodAttempt(s, i, h);
      }
      forall k | 0 <= k < |s'.transfers| ensures GoodTransfer(s', s'.transfers[k]) {
        assert GoodTransfer(s, s.transfers[k]);
      }
    }
  }

  /** The owner's last word on its row. */
  lemma SettleKeepsInv(s: System, id: nat, row: Row, outcome: Outcome, h: Request -> string)
    requires Inv(s, h) && id in s.attempts && Holds(s.attempts[id].pc)
    requires var r := s.attempts[id].request;
             && r.applicationId in s.rows && row.requestHash == s.rows[r.applicationId].requestHash
             && row.status != PROCESSING
             && (row.status == COMPLETED ==> Truthful(row.payload, r, Paid(s.transfers, id)))
             && (if outcome.Replied? then row.status == COMPLETED && row.payload == outcome.payload
                 else outcome == Refused(ExecutionError))
    ensures var r := s.attempts[id].request;
            Inv(Goto(s, id, Replying(outcome)).(rows := s.rows[r.applicationId := row]), h)
  {
    var mine := s.attempts[id].request.applicationId;
    var s' := Goto(s, id, Replying(outcome)).(rows := s.rows[mine := row]);
    assert GoodAttempt(s, id, h) && OwnedRow(s, mine, h);
    forall app | app in s'.rows ensures OwnedRow(s', app, h) {
      assert OwnedRow(s, app, h);
    }
    forall i | i in s'.attempts ensures GoodAttempt(s', i, h) {
      assert GoodAttempt(s, i, h);
    }
    forall k | 0 <= k < |s'.transfers| ensures GoodTransfer(s', s'.transfers[k]) {
      assert GoodTransfer(s, s.transfers[k]);
    }
  }

  lemma PaidAppend(transfers: seq<Transfer>, more: seq<Transfer>, id: nat)
    ensures Paid(transfers + more, id) <==> Paid(transfers, id) || Paid(more, id)
  {
    if Paid(more, id) {
      var k :| 0 <= k < |more| && more[k].attempt == id;
      assert (transfers + more)[|transfers| + k].attempt == id;
    }
    if Paid(transfers, id) {
      var k :| 0 <= k < |transfers| && transfers[k].attempt == id;
      assert (transfers + more)[k].attempt == id;
    }
  }

  lemma PaidMore(transfers: seq<Transfer>, more: seq<Transfer>, id: nat)
    requires forall k :: 0 <= k < |more| ==> more[k].attempt == id
    ensures forall i: nat :: i != id ==> (Paid(transfers + more, i) <==> Paid(transfers, i))
    ensures Paid(transfers + more, id) <==> Paid(transfers, id) || more != []
  {
    forall i: nat ensures Paid(transfers + more, i) <==> Paid(transfers, i) || Paid(more, i) {
      PaidAppend(transfers, more, i);
    }
    assert more != [] ==> more[0].attempt == id;
  }

  lemma NodeKeepsConsistent(id: nat, node: Node, state: State, reference: string, r: Request, paid: bool)
    requires node != End && Consistent(Working(node, state), r, paid) && RunNode(node, state, reference).Success?
    ensures var state' := RunNode(node, state, reference).value;
            var more := TransfersOf(id, node, state, reference);
            && Consistent(Working(NextNode(node, state'), state'), r, paid || more != [])
            && (more != [] ==> more == [Transfer(id, r.applicationId, r.disbursementAmount)] && Payable(r) && !paid)
  {
  }

  lemma WorkKeepsInv(s: System, id: nat, reference: string, h: Request -> string)
    requires Inv(s, h) && id in s.attempts && s.attempts[id].pc.Working?
    ensures Inv(WorkStep(s, id, s.attempts[id].pc.node, s.attempts[id].pc.state, reference), h)
  {
    var Attempt(r, Working(node, state)) := s.attempts[id];
    assert GoodAttempt(s, id, h);
    if node == End {
      GotoKeepsInv(s, id, Saving(state.receipt), h);
    } else if RunNode(node, state, reference).Failure? {
      GotoKeepsInv(s, id, Failing, h);
    } else {
      var s' := WorkStep(s, id, node, state, reference);
      var more := TransfersOf(id, node, state, reference);
      NodeKeepsConsistent(id, node, state, reference, r, Paid(s.transfers, id));
      PaidMore(s.transfers, more, id);
      assert OwnedRow(s, r.applicationId, h);
      forall app | app in s'.rows ensures OwnedRow(s', app, h) {
        assert OwnedRow(s, app, h);
      }
      forall i | i in s'.attempts ensures GoodAttempt(s', i, h) {
        if i != id {
          BystanderStaysGood(s, s', i, h);
        }
      }
      OneMoreTransfer(s, s', id, more);
    }
  }

  lemma BystanderStaysGood(s: System, s': System, i: nat, h: Request -> string)
    requires i in s.attempts && GoodAttempt(s, i, h) && i in s'.attempts && s'.attempts[i] == s.attempts[i]
    requires s'.rows == s.rows && s'.owners == s.owners && (Paid(s'.transfers, i) <==> Paid(s.transfers, i))
    ensures GoodAttempt(s', i, h)
  {
  }

  lemma OneMoreTransfer(s: System, s': System, id: nat, more: seq<Transfer>)
    requires id in s.attempts && id in s'.attempts && s'.attempts == s.attempts[id := s'.attempts[id]]
    requires s'.attempts[id].request == s.attempts[id].request && s'.rows == s.rows && s'.owners == s.owners
    requires s'.transfers == s.transfers + more && (more != [] ==> !Paid(s.transfers, id))
    requires |more| <= 1 && forall k :: 0 <= k < |more| ==> more[k].attempt == id && GoodTransfer(s, more[k])
    requires forall k :: 0 <= k < |s.transfers| ==> GoodTransfer(s, s.transfers[k])
    requires forall i, j :: 0 <= i < j < |s.transfers| ==> s.transfers[i].attempt != s.transfers[j].attempt
    ensures forall k :: 0 <= k < |s'.transfers| ==> GoodTransfer(s', s'.transfers[k])
    ensures forall i, j :: 0 <= i < j < |s'.transfers| ==> s'.transfers[i].attempt != s'.transfers[j].attempt
  {
    forall k | 0 <= k < |s'.transfers| ensures GoodTransfer(s', s'.transfers[k]) {
      assert k < |s.transfers| ==> GoodTransfer(s, s.transfers[k]);
    }
    forall i, j | 0 <= i < j < |s'.transfers| ensures s'.transfers[i].attempt != s'.transfers[j].attempt {
      assert j >= |s.transfers| ==> i < |s.transfers| && s.transfers[i] == s'.transfers[i];
    }
  }

  lemma ReadKeepsInv(s: System, id: nat, h: Request -> string)
    requires Inv(s, h) && id in s.attempts && s.attempts[id].pc.Reading?
    ensures Inv(ReadStep(s, id, h), h)
  {
    var r := s.attempts[id].request;
    assert GoodAttempt(s, id, h);
    match Resolve(Lookup(s.rows, r.applicationId), h(r))
    case Fresh => GotoKeepsInv(s, id, Creating, h);
    case Replay(payload) => GotoKeepsInv(s, id, Replying(Replied(payload)), h);
    case Conflict => GotoKeepsInv(s, id, Replying(Refused(ConflictError)), h);
    case InProgress => GotoKeepsInv(s, id, Replying(Refused(InProgressError)), h);
  }

  lemma RaiseKeepsInv(s: System, id: nat, h: Request -> string)
    requires Inv(s, h) && id in s.attempts
    ensures Inv(RaiseStep(s, id), h)
  {
    assert GoodAttempt(s, id, h);
    match s.attempts[id].pc
    case Working(_, _) => GotoKeepsInv(s, id, Failing, h);
    case Saving(_) => GotoKeepsInv(s, id, Failing, h);
    case Completing(_) => GotoKeepsInv(s, id, Failing, h);
    case Replying(_) => GotoKeepsInv(s, id, Done(Refused(StorageError)), h);
    case Done(_) =>
    case Crashed =>
    case _ => GotoKeepsInv(s, id, Replying(Refused(StorageError)), h);
  }

  lemma AdvanceKeepsInv(s: System, id: nat, reference: string, h: Request -> string)
    requires Inv(s, h) && id in s.attempts
    ensures Inv(AdvanceStep(s, id, reference, h), h)
  {
    assert GoodAttempt(s, id, h);
    var app := s.attempts[id].request.applicationId;
    match s.attempts[id].pc
    case Reading => ReadKeepsInv(s, id, h);
    case Creating => CreateKeepsInv(s, id, h);
    case Working(node, state) => WorkKeepsInv(s, id, reference, h);
    case Saving(receipt) => GotoKeepsInv(s, id, Completing(receipt), h);
    case Completing(receipt) => SettleKeepsInv(s, id, Completed(s.rows, app, receipt)[app], Replied(receipt), h);
    case Failing => SettleKeepsInv(s, id, MarkedFailed(s.rows, app)[app], Refused(ExecutionError), h);
    case Replying(outcome) => GotoKeepsInv(s, id, Done(outcome), h);
    case Done(_) =>
    case Crashed =>
  }

  lemma StepKeepsInv(s: System, a: Action, h: Request -> string)
    requires Inv(s, h)
    ensures Inv(Step(s, a, h), h)
  {
    match a
    case Submit(id, request) =>
      if id !in s.attempts {
        SubmitKeepsInv(s, id, request, h);
      }
    case Advance(id, ok, reference) =>
      if id in s.attempts {
        if ok {
          AdvanceKeepsInv(s, id, reference, h);
        } else {
          RaiseKeepsInv(s, id, h);
        }
      }
    case Crash(id) =>
      if id in s.attempts && !s.attempts[id].pc.Done? {
        GotoKeepsInv(s, id, Crashed, h);
      }
  }

  lemma {:induction false} RunKeepsInv(s: System, actions: seq<Action>, h: Request -> string)
    requires Inv(s, h)
    ensures Inv(Run(s, actions, h), h)
  {
    if actions != [] {
      RunKeepsInv(s, actions[..|actions| - 1], h);
      StepKeepsInv(Run(s, actions[..|actions| - 1], h), actions[|actions| - 1], h);
    }
  }
}
