/** The disbursement agent's request handler, statement by statement, as a run of the step machine. */
module Execution {
  import opened Wrappers
  import opened Workflow
  import opened Idempotency
  import opened Protocol
  import opened MoneySafety

  /** The bank's ledger. */
  class Bank {
    var transfers: seq<Transfer>

    constructor ()
      ensures transfers == []
    {
      transfers := [];
    }
  }

  /** Which of the calls that can raise go through; the node that raises, if one does. */
  datatype Luck = Luck(
    get: bool, create: bool, raisingNode: Option<Node>, save: bool, complete: bool, markFailed: bool, audit: bool)

  /** The heap agrees with machine state s, in which attempt id stands at pc. */
  ghost predicate Tracks(repo: IdempotencyRepository, bank: Bank, s: System, id: nat, r: Request, pc: Pc)
    reads repo, bank
  {
    && repo.rows == s.rows && bank.transfers == s.transfers
    && id in s.attempts && s.attempts[id] == Attempt(r, pc)
  }

  predicate OnlyBy(actions: seq<Action>, id: nat) {
    forall k :: 0 <= k < |actions| ==> actions[k].Advance? && actions[k].id == id
  }

  /** Some steps of attempt id alone lead from one machine state to another. */
  ghost predicate Follows(start: System, s: System, id: nat, h: Request -> string) {
    exists actions :: OnlyBy(actions, id) && Run(start, actions, h) == s
  }

  lemma FollowsItself(start: System, id: nat, h: Request -> string)
    ensures Follows(start, start, id, h)
  {
    assert OnlyBy([], id) && Run(start, [], h) == start;
  }

  /** One more action by this attempt. */
  lemma Proceed(start: System, s: System, id: nat, ok: bool, reference: string, h: Request -> string)
    requires Follows(start, s, id, h) && id in s.attempts
    ensures Follows(start, if ok then AdvanceStep(s, id, reference, h) else RaiseStep(s, id), id, h)
  {
    var actions :| OnlyBy(actions, id) && Run(start, actions, h) == s;
    RunAppend(start, actions, Advance(id, ok, reference), h);
    assert OnlyBy(actions + [Advance(id, ok, reference)], id);
  }

  /** The payment of r, if it pays. */
  function PaymentsFor(id: nat, r: Request): seq<Transfer> {
    if Pays(r) then [Transfer(id, r.applicationId, r.disbursementAmount)] else []
  }

  /** `_graph.invoke`, with the gateway call made inside the transfer node. */
  method Invoke(repo: IdempotencyRepository, bank: Bank, ghost start: System, ghost before: System,
                id: nat, r: Request, h: Request -> string, luck: Luck, reference: string)
    returns (final: Option<State>, ghost now: System)
    requires Tracks(repo, bank, before, id, r, Working(ValidateDecisionNode, InitialState(r)))
    requires Follows(start, before, id, h)
    modifies bank
    ensures Tracks(repo, bank, now, id, r, if final.Some? then Working(End, final.value) else Failing)
    ensures Follows(start, now, id, h)
    ensures luck.raisingNode.None? ==>
              match RunGraph(r, reference)
              case Success(state) => final == Some(state)
              case Failure(_) => final == None && bank.transfers == old(bank.transfers)
    ensures final.Some? ==> bank.transfers == old(bank.transfers) + PaymentsFor(id, r)
    ensures bank.transfers == old(bank.transfers) || bank.transfers == old(bank.transfers) + PaymentsFor(id, r)
  {
    now := before;
    var node, state := ValidateDecisionNode, InitialState(r);
    ghost var paid := false;
    while node != End
      invariant Tracks(repo, bank, now, id, r, Working(node, state))
      invariant Follows(start, now, id, h)
      invariant Consistent(Working(node, state), r, paid)
      invariant bank.transfers == old(bank.transfers) + (if paid then PaymentsFor(id, r) else [])
      invariant luck.raisingNode.None? ==> RunFrom(node, state, reference) == RunGraph(r, reference)
      decreases Distance(node)
    {
      if luck.raisingNode == Some(node) {
        Proceed(start, now, id, false, reference, h);
        return None, RaiseStep(now, id);
      }
      Proceed(start, now, id, true, reference, h);
      ghost var then' := WorkStep(now, id, node, state, reference);
      var after := RunNode(node, state, reference);
      if after.Failure? {
        return None, then';
      }
      NodeKeepsConsistent(id, node, state, reference, r, paid);
      if node == ExecuteTransferNode && ExecuteFundTransfer(Or(state.disbursementAmount, 0), reference).Success? {
        bank.transfers := bank.transfers + [Transfer(id, state.applicationId, Or(state.disbursementAmount, 0))];
        paid := true;
      }
      assert bank.transfers == now.transfers + TransfersOf(id, node, state, reference);
      now := then';
      state := after.value;
      node := NextNode(node, state);
    }
    final := Some(state);
  }

  /** Saving the record with its trail, then completing the row. */
  method SaveAndComplete(repo: IdempotencyRepository, bank: Bank, ghost start: System, ghost before: System,
                         id: nat, r: Request, h: Request -> string, luck: Luck, reference: string, final: State)
    returns (completed: bool, ghost now: System)
    requires Tracks(repo, bank, before, id, r, Working(End, final))
    requires Follows(start, before, id, h)
    requires r.applicationId in repo.rows
    modifies repo
    ensures completed == (luck.save && luck.complete)
    ensures Tracks(repo, bank, now, id, r, if completed then Replying(Replied(final.receipt)) else Failing)
    ensures Follows(start, now, id, h)
    ensures repo.rows
         == if completed
            then old(repo.rows)[r.applicationId :=
                   Row(old(repo.rows)[r.applicationId].requestHash, COMPLETED, final.receipt)]
            else old(repo.rows)
  {
    var receipt := final.receipt;
    Proceed(start, before, id, true, reference, h);
    now := Goto(before, id, Saving(receipt));
    Proceed(start, now, id, luck.save, reference, h);
    if !luck.save {
      return false, Goto(now, id, Failing);
    }
    now := Goto(now, id, Completing(receipt));
    Proceed(start, now, id, luck.complete, reference, h);
    if !luck.complete {
      return false, Goto(now, id, Failing);
    }
    repo.MarkCompleted(r.applicationId, receipt);
    now := Goto(now, id, Replying(Replied(receipt))).(rows := Completed(now.rows, r.applicationId, receipt));
    return true, now;
  }

  /** The row is COMPLETED with the receipt replied, or FAILED, or still PROCESSING when even that mark raised. */
  predicate Settles(before: Table, after: Table, r: Request, outcome: Outcome, luck: Luck)
    requires r.applicationId in before
  {
    var row := before[r.applicationId];
    match outcome
    case Replied(payload) => after == before[r.applicationId := Row(row.requestHash, COMPLETED, payload)]
    case Refused(reason) =>
      if luck.markFailed
      then reason == ExecutionError && after == before[r.applicationId := Row(row.requestHash, ROW_FAILED, row.payload)]
      else reason == StorageError && after == before
  }

  /** The part under `except`: once the row exists, an exception marks it FAILED before it goes on. */
  method ExecuteOwned(repo: IdempotencyRepository, bank: Bank, ghost start: System, ghost before: System,
                      id: nat, r: Request, h: Request -> string, luck: Luck, reference: string)
    returns (outcome: Outcome, ghost now: System)
    requires Tracks(repo, bank, before, id, r, Working(ValidateDecisionNode, InitialState(r)))
    requires Follows(start, before, id, h)
    requires r.applicationId in repo.rows
    modifies repo, bank
    ensures Tracks(repo, bank, now, id, r, Replying(outcome))
    ensures Follows(start, now, id, h)
    ensures Settles(old(repo.rows), repo.rows, r, outcome, luck)
    ensures luck.raisingNode.None? ==>
              match RunGraph(r, reference)
              case Success(final) => outcome.Replied? == (luck.save && luck.complete)
                                     && (outcome.Replied? ==> outcome == Replied(final.receipt))
              case Failure(_) => outcome.Refused? && bank.transfers == old(bank.transfers)
    ensures outcome.Replied? ==> bank.transfers == old(bank.transfers) + PaymentsFor(id, r)
    ensures bank.transfers == old(bank.transfers) || bank.transfers == old(bank.transfers) + PaymentsFor(id, r)
  {
    var final;
    final, now := Invoke(repo, bank, start, before, id, r, h, luck, reference);
    if final.Some? {
      var completed;
      completed, now := SaveAndComplete(repo, bank, start, now, id, r, h, luck, reference, final.value);
      if completed {
        return Replied(final.value.receipt), now;
      }
    }
    Proceed(start, now, id, luck.markFailed, reference, h);
    if luck.markFailed {
      repo.MarkFailed(r.applicationId);
      now := Goto(now, id, Replying(Refused(ExecutionError))).(rows := MarkedFailed(now.rows, r.applicationId));
      return Refused(ExecutionError), now;
    }
    now := Goto(now, id, Replying(Refused(StorageError)));
    return Refused(StorageError), now;
  }

  method ExecuteFresh(repo: IdempotencyRepository, bank: Bank, ghost start: System, ghost before: System,
                      id: nat, r: Request, h: Request -> string, luck: Luck, reference: string)
    returns (outcome: Outcome, ghost now: System)
    requires Tracks(repo, bank, before, id, r, Creating)
    requires Follows(start, before, id, h)
    modifies repo, bank
    ensures Tracks(repo, bank, now, id, r, Replying(outcome))
    ensures Follows(start, now, id, h)
    ensures r.applicationId in old(repo.rows) || !luck.create ==>
              && repo.rows == old(repo.rows) && bank.transfers == old(bank.transfers)
              && outcome == Refused(if luck.create then DuplicateKeyError else StorageError)
    ensures r.applicationId !in old(repo.rows) && luck.create ==>
              && Settles(old(repo.rows)[r.applicationId := Row(h(r), PROCESSING, None)], repo.rows, r, outcome, luck)
              && (outcome.Replied? ==> bank.transfers == old(bank.transfers) + PaymentsFor(id, r))
              && (luck.raisingNode.None? ==>
                    match RunGraph(r, reference)
                    case Success(final) => outcome.Replied? == (luck.save && luck.complete)
                                           && (outcome.Replied? ==> outcome == Replied(final.receipt))
                    case Failure(_) => outcome.Refused? && bank.transfers == old(bank.transfers))
    ensures bank.transfers == old(bank.transfers) || bank.transfers == old(bank.transfers) + PaymentsFor(id, r)
  {
    Proceed(start, before, id, luck.create, reference, h);
    if !luck.create {
      outcome := Refused(StorageError);
      now := Goto(before, id, Replying(outcome));
    } else {
      var failure := repo.Create(r.applicationId, h(r));
      now := CreateStep(before, id, h);
      if failure.Some? {
        outcome := Refused(DuplicateKeyError);
      } else {
        outcome, now := ExecuteOwned(repo, bank, start, now, id, r, h, luck, reference);
      }
    }
  }

  /** No call raises. */
  predicate NothingRaises(luck: Luck) {
    luck == Luck(true, true, None, true, true, true, true)
  }

  /** The part under `try`: look the key up and act on what is found. */
  method Handle(repo: IdempotencyRepository, bank: Bank, ghost start: System, ghost before: System, id: nat,
                r: Request, h: Request -> string, luck: Luck, reference: string)
    returns (outcome: Outcome, ghost now: System)
    requires Tracks(repo, bank, before, id, r, Reading)
    requires Follows(start, before, id, h)
    modifies repo, bank
    ensures Tracks(repo, bank, now, id, r, Replying(outcome))
    ensures Follows(start, now, id, h)
    ensures !luck.get ==> outcome == Refused(StorageError)
    ensures r.applicationId in old(repo.rows) || !luck.get || !luck.create ==>
              repo.rows == old(repo.rows) && bank.transfers == old(bank.transfers)
    ensures r.applicationId in old(repo.rows) && luck.get && luck.create ==>
              var row := old(repo.rows)[r.applicationId];
              outcome
              == if row.requestHash != h(r) then Refused(ConflictError)
                 else if row.status == COMPLETED && row.payload.Some? then Replied(row.payload)
                 else if row.status == PROCESSING then Refused(InProgressError)
                 else Refused(DuplicateKeyError)
    ensures r.applicationId !in old(repo.rows) && luck.get && luck.create ==>
              && Settles(old(repo.rows)[r.applicationId := Row(h(r), PROCESSING, None)], repo.rows, r, outcome, luck)
              && (outcome.Replied? ==> bank.transfers == old(bank.transfers) + PaymentsFor(id, r))
              && (luck.raisingNode.None? ==>
                    match RunGraph(r, reference)
                    case Success(final) => outcome.Replied? == (luck.save && luck.complete)
                                           && (outcome.Replied? ==> outcome == Replied(final.receipt))
                    case Failure(_) => outcome.Refused? && bank.transfers == old(bank.transfers))
    ensures bank.transfers == old(bank.transfers) || bank.transfers == old(bank.transfers) + PaymentsFor(id, r)
  {
    Proceed(start, before, id, luck.get, reference, h);
    if !luck.get {
      outcome := Refused(StorageError);
      return outcome, Goto(before, id, Replying(outcome));
    }
    var existing := repo.Get(r.applicationId);
    now := ReadStep(before, id, h);
    match Resolve(existing, h(r)) {
      case Replay(payload) => outcome := Replied(payload);
      case Conflict => outcome := Refused(ConflictError);
      case InProgress => outcome := Refused(InProgressError);
      case Fresh => outcome, now := ExecuteFresh(repo, bank, start, now, id, r, h, luck, reference);
    }
  }

  /**
   * The request handler. Whatever raises, table, bank and answer are those of a run of the machine in which only this
   * attempt moves. A key that is taken changes nothing and is answered by its row. A new key is worked on: when nothing
   * raises, the receipt is replied, stored and true of the bank; it stays PROCESSING only if the FAILED mark raised.
   */
  method ExecuteDisbursement(repo: IdempotencyRepository, bank: Bank, ghost start: System, id: nat,
                             r: Request, h: Request -> string, luck: Luck, reference: string)
    returns (outcome: Outcome, ghost now: System)
    requires id !in start.attempts && repo.rows == start.rows && bank.transfers == start.transfers
    modifies repo, bank
    ensures Tracks(repo, bank, now, id, r, Done(outcome))
    ensures Follows(Step(start, Submit(id, r), h), now, id, h)
    ensures !luck.get || !luck.audit ==> outcome == Refused(StorageError)
    ensures r.applicationId in old(repo.rows) ==>
              repo.rows == old(repo.rows) && bank.transfers == old(bank.transfers)
    ensures r.applicationId in old(repo.rows) && NothingRaises(luck) ==>
              var row := old(repo.rows)[r.applicationId];
              outcome
              == if row.requestHash != h(r) then Refused(ConflictError)
                 else if row.status == COMPLETED && row.payload.Some? then Replied(row.payload)
                 else if row.status == PROCESSING then Refused(InProgressError)
                 else Refused(DuplicateKeyError)
    ensures r.applicationId !in old(repo.rows) && NothingRaises(luck) ==>
              match RunGraph(r, reference)
              case Success(final) =>
                && outcome == Replied(final.receipt)
                && repo.rows == old(repo.rows)[r.applicationId := Row(h(r), COMPLETED, final.receipt)]
                && bank.transfers == old(bank.transfers) + PaymentsFor(id, r)
              case Failure(_) =>
                && outcome == Refused(ExecutionError)
                && repo.rows == old(repo.rows)[r.applicationId := Row(h(r), ROW_FAILED, None)]
                && bank.transfers == old(bank.transfers)
    ensures r.applicationId !in old(repo.rows) && r.applicationId in repo.rows ==>
              && repo.rows[r.applicationId].requestHash == h(r)
              && (repo.rows[r.applicationId].status == PROCESSING ==> !luck.markFailed)
              && (repo.rows[r.applicationId].status == COMPLETED ==>
                    bank.transfers == old(bank.transfers) + PaymentsFor(id, r))
    ensures bank.transfers == old(bank.transfers) || bank.transfers == old(bank.transfers) + PaymentsFor(id, r)
  {
    now := Step(start, Submit(id, r), h);
    FollowsItself(now, id, h);
    ghost var submitted := now;
    outcome, now := Handle(repo, bank, submitted, now, id, r, h, luck, reference);
    Proceed(submitted, now, id, luck.audit, reference, h);
    if !luck.audit {
      outcome := Refused(StorageError);
    }
    now := Goto(now, id, Done(outcome));
  }
}
