/** Which attempts can still be paid: a condition on where an attempt stands that decides it for all futures. */
module Prospects {
  import opened Workflow
  import opened Protocol
  import opened MoneySafety

  /** Before its transfer, on terms that pay, and with its key in hand or free. */
  predicate CanPay(s: System, id: nat) {
    && id in s.attempts && BeforeTransfer(s.attempts[id].pc) && Payable(s.attempts[id].request)
    && (s.attempts[id].pc.Working? || s.attempts[id].request.applicationId !in s.rows)
  }

  // ---- What can pay does, left alone -----------------------------------------------------------

  function ToPay(pc: Pc): nat {
    match pc
    case Reading => 5
    case Creating => 4
    case Working(node, _) => if node == End then 0 else Distance(node) - 1
    case _ => 0
  }

  function Go(id: nat): Action {
    Advance(id, true, "")
  }

  /** The payment attempt id makes. */
  function PaymentOf(s: System, id: nat): Transfer
    requires id in s.attempts
  {
    Transfer(id, s.attempts[id].request.applicationId, s.attempts[id].request.disbursementAmount)
  }

  lemma StandsWell(s: System, id: nat, h: Request -> string)
    requires Inv(s, h) && id in s.attempts
    ensures Consistent(s.attempts[id].pc, s.attempts[id].request, Paid(s.transfers, id))
  {
    assert GoodAttempt(s, id, h);
  }

  predicate Closer(s: System, s': System, id: nat) {
    && CanPay(s, id) && CanPay(s', id) && ToPay(s'.attempts[id].pc) < ToPay(s.attempts[id].pc)
    && s'.transfers == s.transfers && PaymentOf(s', id) == PaymentOf(s, id)
  }

  lemma ComesCloser(s: System, id: nat, h: Request -> string)
    requires Inv(s, h) && CanPay(s, id) && ToPay(s.attempts[id].pc) > 1
    ensures Closer(s, Step(s, Go(id), h), id)
  {
    match s.attempts[id].pc
    case Reading => ReadingComesCloser(s, id, h);
    case Creating => CreatingComesCloser(s, id, h);
    case Working(_, _) => WorkingComesCloser(s, id, h);
    case _ =>
  }

  lemma ReadingComesCloser(s: System, id: nat, h: Request -> string)
    requires CanPay(s, id) && s.attempts[id].pc.Reading?
    ensures Closer(s, Step(s, Go(id), h), id)
  {
  }

  lemma CreatingComesCloser(s: System, id: nat, h: Request -> string)
    requires CanPay(s, id) && s.attempts[id].pc.Creating?
    ensures Closer(s, Step(s, Go(id), h), id)
  {
  }

  lemma WorkingComesCloser(s: System, id: nat, h: Request -> string)
    requires Inv(s, h) && CanPay(s, id) && s.attempts[id].pc.Working? && ToPay(s.attempts[id].pc) > 1
    ensures Closer(s, Step(s, Go(id), h), id)
  {
    StandsWell(s, id, h);
    assert TransfersOf(id, s.attempts[id].pc.node, s.attempts[id].pc.state, "") == [];
    assert s.transfers + [] == s.transfers;
  }

  lemma StandsBefore(s: System, id: nat)
    requires CanPay(s, id)
    ensures 1 <= ToPay(s.attempts[id].pc) <= 5
  {
  }

  lemma PaysNow(s: System, id: nat, h: Request -> string)
    requires Inv(s, h) && CanPay(s, id) && ToPay(s.attempts[id].pc) == 1
    ensures Run(s, [Go(id)], h).transfers == s.transfers + [PaymentOf(s, id)]
  {
    StandsWell(s, id, h);
    assert [Go(id)][..0] == [];
    assert Run(s, [Go(id)], h) == Step(s, Go(id), h);
  }

  predicate OnlyGo(actions: seq<Action>, id: nat) {
    forall k :: 0 <= k < |actions| ==> actions[k] == Go(id)
  }

  lemma {:induction false} RunFirst(s: System, a: Action, rest: seq<Action>, h: Request -> string)
    ensures Run(s, [a] + rest, h) == Run(Step(s, a, h), rest, h)
  {
    if rest == [] {
      assert [a] + rest == [] + [a];
      RunAppend(s, [], a, h);
    } else {
      var before := rest[..|rest| - 1];
      RunFirst(s, a, before, h);
      assert ([a] + rest)[..|[a] + rest| - 1] == [a] + before;
    }
  }

  /** Within five steps of its own, and with no help, an attempt that can pay has paid. */
  lemma {:induction false} PaysSoon(s: System, id: nat, h: Request -> string) returns (actions: seq<Action>)
    requires Inv(s, h) && CanPay(s, id)
    ensures |actions| <= ToPay(s.attempts[id].pc) <= 5 && OnlyGo(actions, id)
    ensures Run(s, actions, h).transfers == s.transfers + [PaymentOf(s, id)]
    decreases ToPay(s.attempts[id].pc), 1
  {
    StandsBefore(s, id);
    if ToPay(s.attempts[id].pc) == 1 {
      PaysNow(s, id, h);
      actions := [Go(id)];
    } else {
      var s' := Step(s, Go(id), h);
      ComesCloser(s, id, h);
      StepKeepsInv(s, Go(id), h);
      actions := OneStepLater(s, s', id, h);
    }
  }

  lemma {:induction false} OneStepLater(s: System, s': System, id: nat, h: Request -> string)
    returns (actions: seq<Action>)
    requires Step(s, Go(id), h) == s' && Inv(s', h) && Closer(s, s', id)
    ensures |actions| <= ToPay(s.attempts[id].pc) && OnlyGo(actions, id)
    ensures Run(s, actions, h).transfers == s.transfers + [PaymentOf(s, id)]
    decreases ToPay(s.attempts[id].pc), 0
  {
    var rest := PaysSoon(s', id, h);
    RunFirst(s, Go(id), rest, h);
    actions := [Go(id)] + rest;
  }

  // ---- What cannot pay never does --------------------------------------------------------------

  /** Attempt id goes on without a payment and without a prospect. */
  predicate StaysOut(s: System, s': System, id: nat) {
    && id in s.attempts && id in s'.attempts && s'.attempts[id].request == s.attempts[id].request
    && !CanPay(s', id) && (Paid(s'.transfers, id) <==> Paid(s.transfers, id))
  }

  lemma RowsStay(s: System, a: Action, h: Request -> string, app: string)
    requires Inv(s, h) && app in s.rows
    ensures app in Step(s, a, h).rows && Step(s, a, h).rows[app].requestHash == s.rows[app].requestHash
  {
    RowsMoveForward(s, a, h, app);
  }

  lemma OthersMove(s: System, a: Action, h: Request -> string, id: nat)
    requires Inv(s, h) && id in s.attempts && !CanPay(s, id) && a.id != id
    ensures StaysOut(s, Step(s, a, h), id)
  {
    var s' := Step(s, a, h);
    var app := s.attempts[id].request.applicationId;
    if app in s.rows {
      RowsStay(s, a, h, app);
    }
    OthersUntouched(s, a, h, id);
    SamePaid(s, a, h, id);
  }

  lemma OthersUntouched(s: System, a: Action, h: Request -> string, id: nat)
    requires id in s.attempts && a.id != id
    ensures id in Step(s, a, h).attempts && Step(s, a, h).attempts[id] == s.attempts[id]
  {
  }

  lemma SamePaid(s: System, a: Action, h: Request -> string, id: nat)
    requires a.id != id
    ensures Paid(Step(s, a, h).transfers, id) <==> Paid(s.transfers, id)
  {
    if a.Advance? && a.ok && a.id in s.attempts && s.attempts[a.id].pc.Working? {
      var Working(node, state) := s.attempts[a.id].pc;
      PaidMore(s.transfers, TransfersOf(a.id, node, state, a.reference), a.id);
    }
  }

  lemma OwnWork(s: System, id: nat, reference: string, h: Request -> string)
    requires Inv(s, h) && id in s.attempts && !CanPay(s, id) && s.attempts[id].pc.Working?
    ensures StaysOut(s, Step(s, Advance(id, true, reference), h), id)
  {
    StandsWell(s, id, h);
    var Working(node, state) := s.attempts[id].pc;
    assert TransfersOf(id, node, state, reference) == [];
    assert s.transfers + [] == s.transfers;
  }

  lemma OwnMove(s: System, a: Action, h: Request -> string, id: nat)
    requires Inv(s, h) && id in s.attempts && !CanPay(s, id) && a.id == id
    ensures StaysOut(s, Step(s, a, h), id)
  {
    if a.Advance? && a.ok && s.attempts[id].pc.Working? {
      OwnWork(s, id, a.reference, h);
    }
  }

  lemma StepStaysOut(s: System, a: Action, h: Request -> string, id: nat)
    requires Inv(s, h) && id in s.attempts && !CanPay(s, id)
    ensures StaysOut(s, Step(s, a, h), id)
  {
    if a.id == id {
      OwnMove(s, a, h, id);
    } else {
      OthersMove(s, a, h, id);
    }
  }

  lemma {:induction false} RunStaysOut(s: System, actions: seq<Action>, h: Request -> string, id: nat)
    requires Inv(s, h) && id in s.attempts && !CanPay(s, id)
    ensures StaysOut(s, Run(s, actions, h), id)
  {
    if actions != [] {
      var before := actions[..|actions| - 1];
      RunStaysOut(s, before, h, id);
      RunKeepsInv(s, before, h);
      StepStaysOut(Run(s, before, h), actions[|actions| - 1], h, id);
    }
  }

  /** Whether an attempt that is unpaid can ever be paid is decided by where it stands. */
  lemma StillPaysIff(s: System, h: Request -> string, id: nat)
    requires Inv(s, h) && id in s.attempts && !Paid(s.transfers, id)
    ensures (exists actions :: Paid(Run(s, actions, h).transfers, id)) <==> CanPay(s, id)
  {
    if CanPay(s, id) {
      var actions := PaysSoon(s, id, h);
      var k := |s.transfers|;
      assert Run(s, actions, h).transfers[k].attempt == id;
      assert Paid(Run(s, actions, h).transfers, id);
    }
    if exists actions :: Paid(Run(s, actions, h).transfers, id) {
      var actions :| Paid(Run(s, actions, h).transfers, id);
      if !CanPay(s, id) {
        RunStaysOut(s, actions, h, id);
      }
    }
  }

  // ---- Seen from the application ---------------------------------------------------------------

  /** The payment for an application is the payment of its row's owner. */
  lemma PaidForIsOwnersPaid(s: System, h: Request -> string, app: string)
    requires Inv(s, h) && app in s.rows
    ensures app in s.owners && s.owners[app] in s.attempts
    ensures PaidFor(s, app) <==> Paid(s.transfers, s.owners[app])
  {
    assert OwnedRow(s, app, h);
    forall k | 0 <= k < |s.transfers|
      ensures s.transfers[k].applicationId == app <==> s.transfers[k].attempt == s.owners[app]
    {
      assert GoodTransfer(s, s.transfers[k]);
    }
  }

  lemma OwnersStay(s: System, a: Action, h: Request -> string, app: string)
    requires Inv(s, h) && app in s.rows
    ensures app in s.owners && app in Step(s, a, h).owners && Step(s, a, h).owners[app] == s.owners[app]
  {
    assert OwnedRow(s, app, h);
  }
}
