/** The four-node disbursement graph, the gateway it calls, the receipt and the trail derived from its final state. */
module Workflow {
  import opened Wrappers
  import opened Emi
  import opened Schedule

  datatype Status = PENDING | VALIDATED | SCHEDULED | TRANSFER_INITIATED | FAILED | DISBURSED | TRANSFER_PENDING

  datatype GatewayStatus = GatewaySuccess | GatewayPending | GatewayFailed

  datatype Field = ApprovedAmount | ApprovedTenure | InterestRate | DisbursementAmount

  datatype Problem = Missing(fields: seq<Field>) | TransferRejected(amount: int)

  /** Amounts in cents, the rate in percent a year; the explanation only matters to the hash. */
  datatype Request = Request(
    applicationId: string, approvedAmount: int, tenure: int, rate: real, disbursementAmount: int,
    explanation: Option<string>)

  datatype Receipt = Receipt(
    applicationId: string, status: Status, approvedAmount: int, disbursementAmount: int, originationFee: int,
    rate: real, tenure: int, monthlyEmi: int, totalInterest: int, totalRepayment: int,
    transactionId: Option<string>, transferStatus: Option<GatewayStatus>, reconciliationRequired: bool,
    schedule: seq<Installment>)

  /** The graph's state; an absent key is None. */
  datatype State = State(
    applicationId: string,
    approvedAmount: Option<int>, tenure: Option<int>, rate: Option<real>, disbursementAmount: Option<int>,
    status: Status, validationPassed: bool, plan: Option<RepaymentSchedule>,
    transactionId: Option<string>, transferStatus: Option<GatewayStatus>, reconciliationRequired: bool,
    problem: Option<Problem>, receipt: Option<Receipt>)

  function InitialState(r: Request): State {
    State(r.applicationId, Some(r.approvedAmount), Some(r.tenure), Some(r.rate), Some(r.disbursementAmount),
          PENDING, false, None, None, None, false, None, None)
  }

  function Or<T>(x: Option<T>, default: T): T {
    if x.Some? then x.value else default
  }

  // ---- Nodes ----------------------------------------------------------------------------------

  /** Present and not zero, as `if not state.get(...)` tests it. */
  predicate Truthy(x: Option<int>) {
    x.Some? && x.value != 0
  }

  predicate TermsPresent(s: State) {
    Truthy(s.approvedAmount) && Truthy(s.tenure) && s.rate.Some? && Truthy(s.disbursementAmount)
  }

  function MissingFields(s: State): seq<Field> {
    (if Truthy(s.approvedAmount) then [] else [ApprovedAmount])
    + (if Truthy(s.tenure) then [] else [ApprovedTenure])
    + (if s.rate.Some? then [] else [InterestRate])
    + (if Truthy(s.disbursementAmount) then [] else [DisbursementAmount])
  }

  function AfterValidation(s: State): State {
    if TermsPresent(s) then s.(status := VALIDATED, validationPassed := true)
    else s.(status := FAILED, validationPassed := false, problem := Some(Missing(MissingFields(s))))
  }

  method ValidateDecision(s: State) returns (s': State)
    ensures s' == AfterValidation(s)
  {
    var errors: seq<Field> := [];
    if !Truthy(s.approvedAmount) {
      errors := errors + [ApprovedAmount];
    }
    if !Truthy(s.tenure) {
      errors := errors + [ApprovedTenure];
    }
    if s.rate.None? {
      errors := errors + [InterestRate];
    }
    if !Truthy(s.disbursementAmount) {
      errors := errors + [DisbursementAmount];
    }
    assert errors == MissingFields(s);
    if errors != [] {
      return s.(status := FAILED, validationPassed := false, problem := Some(Missing(errors)));
    }
    return s.(status := VALIDATED, validationPassed := true);
  }

  function AfterSchedule(s: State): Result<State, EmiError> {
    var plan :- ScheduleOf(Or(s.approvedAmount, 0), Or(s.rate, 0.0), Or(s.tenure, 0));
    Success(s.(status := SCHEDULED, plan := Some(plan)))
  }

  /** Fifty thousand dollars, in cents: from here on the bank settles later. */
  const SETTLE_LATER_FROM := 5000000

  datatype GatewayResult = GatewayResult(transactionId: string, status: GatewayStatus, amount: int)

  /** `reference` stands for the random part of the transaction id. */
  function ExecuteFundTransfer(amount: int, reference: string): Result<GatewayResult, Problem> {
    if amount <= 0 then Failure(TransferRejected(amount))
    else Success(GatewayResult("TXN-" + reference,
                               if amount >= SETTLE_LATER_FROM then GatewayPending else GatewaySuccess, amount))
  }

  function WithTransferResult(s: State, result: GatewayResult): State {
    s.(status := if result.status == GatewaySuccess then DISBURSED else TRANSFER_PENDING,
       transactionId := Some(result.transactionId), transferStatus := Some(result.status),
       reconciliationRequired := result.status != GatewaySuccess)
  }

  function WithTransferFailure(s: State, problem: Problem): State {
    s.(status := FAILED, transferStatus := Some(GatewayFailed), reconciliationRequired := false,
       problem := Some(problem))
  }

  function AfterTransfer(s: State, reference: string): State {
    match ExecuteFundTransfer(Or(s.disbursementAmount, 0), reference)
    case Success(result) => WithTransferResult(s, result)
    case Failure(problem) => WithTransferFailure(s, problem)
  }

  function BuildReceipt(s: State): Receipt {
    var approved, disbursed := Or(s.approvedAmount, 0), Or(s.disbursementAmount, 0);
    Receipt(s.applicationId, s.status, approved, disbursed, approved - disbursed,
            Or(s.rate, 0.0), Or(s.tenure, 0),
            if s.plan.Some? then s.plan.value.monthlyEmi else 0,
            if s.plan.Some? then s.plan.value.totalInterest else 0,
            if s.plan.Some? then s.plan.value.totalRepayment else 0,
            s.transactionId, s.transferStatus, s.reconciliationRequired,
            if s.plan.Some? then s.plan.value.installments else [])
  }

  // ---- The graph ------------------------------------------------------------------------------

  datatype Node = ValidateDecisionNode | GenerateScheduleNode | ExecuteTransferNode | GenerateReceiptNode | End

  /** The state a node leaves behind; only the schedule can raise. */
  function RunNode(node: Node, s: State, reference: string): Result<State, EmiError> {
    match node
    case ValidateDecisionNode => Success(AfterValidation(s))
    case GenerateScheduleNode => AfterSchedule(s)
    case ExecuteTransferNode => Success(AfterTransfer(s, reference))
    case GenerateReceiptNode => Success(s.(receipt := Some(BuildReceipt(s))))
    case End => Success(s)
  }

  /** The edges; validation routes on what it found. */
  function NextNode(node: Node, s: State): Node {
    match node
    case ValidateDecisionNode => if s.validationPassed then GenerateScheduleNode else GenerateReceiptNode
    case GenerateScheduleNode => ExecuteTransferNode
    case ExecuteTransferNode => GenerateReceiptNode
    case GenerateReceiptNode => End
    case End => End
  }

  function Distance(node: Node): nat {
    match node
    case ValidateDecisionNode => 4
    case GenerateScheduleNode => 3
    case ExecuteTransferNode => 2
    case GenerateReceiptNode => 1
    case End => 0
  }

  function RunFrom(node: Node, s: State, reference: string): Result<State, EmiError>
    decreases Distance(node)
  {
    if node == End then Success(s)
    else
      var s' :- RunNode(node, s, reference);
      RunFrom(NextNode(node, s'), s', reference)
  }

  function RunGraph(r: Request, reference: string): Result<State, EmiError> {
    RunFrom(ValidateDecisionNode, InitialState(r), reference)
  }

  // ---- The audit trail ------------------------------------------------------------------------

  datatype Transition = Transition(from: Option<Status>, to: Status)

  const ON_THE_WAY: set<Status> := {PENDING, VALIDATED, SCHEDULED, TRANSFER_INITIATED}

  predicate HasInstallments(s: State) {
    s.plan.Some? && s.plan.value.installments != []
  }

  predicate HasTransaction(s: State) {
    s.transactionId.Some? && s.transactionId.value != ""
  }

  function TransitionHistory(s: State): seq<Transition> {
    var progress := [Transition(None, PENDING)]
      + (if s.validationPassed then [Transition(Some(PENDING), VALIDATED)] else [])
      + (if s.validationPassed && HasInstallments(s) then [Transition(Some(VALIDATED), SCHEDULED)] else [])
      + (if s.validationPassed && HasTransaction(s) then [Transition(Some(SCHEDULED), TRANSFER_INITIATED)] else []);
    if s.status in ON_THE_WAY then progress
    else progress + [Transition(Some(progress[|progress| - 1].to), s.status)]
  }

  method DeriveTransitionHistory(s: State) returns (history: seq<Transition>)
    ensures history == TransitionHistory(s)
  {
    history := [Transition(None, PENDING)];
    if s.validationPassed {
      history := history + [Transition(Some(PENDING), VALIDATED)];
      if HasInstallments(s) {
        history := history + [Transition(Some(VALIDATED), SCHEDULED)];
      }
      if HasTransaction(s) {
        history := history + [Transition(Some(SCHEDULED), TRANSFER_INITIATED)];
      }
    }
    if s.status !in ON_THE_WAY {
      history := history + [Transition(Some(history[|history| - 1].to), s.status)];
    }
  }

  /** A linked chain: it starts from nothing and every step starts where the last one ended. */
  predicate Linked(history: seq<Transition>) {
    && history != [] && history[0] == Transition(None, PENDING)
    && forall i :: 0 < i < |history| ==> history[i].from == Some(history[i - 1].to)
  }

  function Statuses(history: seq<Transition>): seq<Status> {
    seq(|history|, i requires 0 <= i < |history| => history[i].to)
  }

  predicate Accepted(r: Request) {
    r.approvedAmount != 0 && r.tenure != 0 && r.disbursementAmount != 0
  }

  /** Money leaves in a run exactly when the terms are present and the amount is positive. */
  predicate Pays(r: Request) {
    Accepted(r) && r.disbursementAmount > 0
  }

  predicate Scheduled(r: Request) {
    ScheduleOf(r.approvedAmount, r.rate, r.tenure).Success?
  }

  /** What a caller can check of a request that is to be paid. */
  predicate Payable(r: Request) {
    Pays(r) && Scheduled(r)
  }

  function SettledStatus(amount: int): Status {
    if amount >= SETTLE_LATER_FROM then TRANSFER_PENDING else DISBURSED
  }

  /** The one road a request can take. */
  function Road(r: Request): seq<Status> {
    if !Accepted(r) then [PENDING, FAILED]
    else if !Pays(r) then [PENDING, VALIDATED, SCHEDULED, FAILED]
    else [PENDING, VALIDATED, SCHEDULED, TRANSFER_INITIATED, SettledStatus(r.disbursementAmount)]
  }

  /** Every run that ends: what its final state, its receipt and the gateway say agree with one another. */
  lemma ReceiptTellsTheOutcome(r: Request, reference: string)
    requires RunGraph(r, reference).Success?
    ensures var s := RunGraph(r, reference).value;
            && s.receipt.Some? && s.receipt.value.status == s.status
            && s.receipt.value.applicationId == r.applicationId
            && s.receipt.value.originationFee + s.receipt.value.disbursementAmount == r.approvedAmount
            && s.receipt.value.disbursementAmount == r.disbursementAmount
            && s.status == (if Pays(r) then SettledStatus(r.disbursementAmount) else FAILED)
            && (s.receipt.value.transactionId.Some? <==> Pays(r))
            && (s.receipt.value.reconciliationRequired <==> s.status == TRANSFER_PENDING)
            && (s.validationPassed <==> Accepted(r)) && (HasTransaction(s) <==> Pays(r))
            && (HasInstallments(s) <==> Accepted(r) && r.tenure > 0)
            && (s.plan.Some? <==> Accepted(r))
            && (Accepted(r) ==> ScheduleOf(r.approvedAmount, r.rate, r.tenure) == Success(s.plan.value)
                                && s.receipt.value.schedule == s.plan.value.installments)
  {
    var s0 := InitialState(r);
    var s1 := AfterValidation(s0);
    if s1.validationPassed {
      var s2 := AfterSchedule(s1).value;
      var s3 := AfterTransfer(s2, reference);
    }
  }

  predicate AbsentOrZero(x: Option<int>) {
    x == None || x == Some(0)
  }

  /** The error names exactly the fields that are absent or zero; a rate of zero is a rate. */
  lemma MissingFieldsAreNamed(s: State)
    ensures var s' := AfterValidation(s);
            && (s'.status == VALIDATED && s'.validationPassed
                <==> !AbsentOrZero(s.approvedAmount) && !AbsentOrZero(s.tenure) && s.rate != None
                     && !AbsentOrZero(s.disbursementAmount))
            && (!s'.validationPassed ==>
                  && s'.status == FAILED && s'.problem.Some? && s'.problem.value.Missing?
                  && var fields := s'.problem.value.fields;
                     && (ApprovedAmount in fields <==> AbsentOrZero(s.approvedAmount))
                     && (ApprovedTenure in fields <==> AbsentOrZero(s.tenure))
                     && (InterestRate in fields <==> s.rate == None)
                     && (DisbursementAmount in fields <==> AbsentOrZero(s.disbursementAmount)))
  {
  }

  /** The gateway refuses exactly what is not a positive amount. */
  lemma GatewayRefusesIff(amount: int, reference: string)
    ensures ExecuteFundTransfer(amount, reference)
         == if amount >= 1
            then Success(GatewayResult("TXN-" + reference, if amount <= 4999999 then GatewaySuccess else GatewayPending,
                                       amount))
            else Failure(TransferRejected(amount))
  {
  }

  /** The status a request has along the way to its transfer. */
  lemma StatusesAlongTheRoad(r: Request)
    requires Accepted(r) && Scheduled(r)
    ensures InitialState(r).status == PENDING
    ensures AfterValidation(InitialState(r)).status == VALIDATED
    ensures AfterSchedule(AfterValidation(InitialState(r))).Success?
    ensures AfterSchedule(AfterValidation(InitialState(r))).value.status == SCHEDULED
  {
  }

  /** Below fifty thousand dollars a payment settles at once, from there on later; the receipt says so. */
  lemma LargePaymentsSettleLater(r: Request, reference: string)
    requires RunGraph(r, reference).Success? && Accepted(r)
    ensures var s := RunGraph(r, reference).value;
            && s.receipt.Some?
            && (1 <= r.disbursementAmount <= 4999999 ==>
                  && s.receipt.value.status == DISBURSED && s.receipt.value.transferStatus == Some(GatewaySuccess)
                  && !s.receipt.value.reconciliationRequired)
            && (r.disbursementAmount >= 5000000 ==>
                  && s.receipt.value.status == TRANSFER_PENDING
                  && s.receipt.value.transferStatus == Some(GatewayPending)
                  && s.receipt.value.reconciliationRequired)
            && (r.disbursementAmount >= 1 ==> s.receipt.value.transactionId == Some("TXN-" + reference))
            && (r.disbursementAmount < 0 ==>
                  && s.receipt.value.status == FAILED && s.receipt.value.transferStatus == Some(GatewayFailed)
                  && s.problem == Some(TransferRejected(r.disbursementAmount)))
  {
    var s1 := AfterValidation(InitialState(r));
    var s2 := AfterSchedule(s1).value;
    var s3 := AfterTransfer(s2, reference);
  }

  /** Every figure on a receipt: the request's own terms, and those of its schedule if validation let it have one. */
  lemma ReceiptShowsTheSchedule(r: Request, reference: string)
    requires RunGraph(r, reference).Success?
    ensures var s := RunGraph(r, reference).value;
            && s.receipt.Some?
            && var receipt := s.receipt.value;
               && receipt.approvedAmount == r.approvedAmount && receipt.rate == r.rate && receipt.tenure == r.tenure
               && (Accepted(r) ==>
                     && ScheduleOf(r.approvedAmount, r.rate, r.tenure).Success?
                     && var plan := ScheduleOf(r.approvedAmount, r.rate, r.tenure).value;
                        && receipt.monthlyEmi == plan.monthlyEmi && receipt.totalInterest == plan.totalInterest
                        && receipt.totalRepayment == plan.totalRepayment && receipt.schedule == plan.installments)
               && (!Accepted(r) ==>
                     && receipt.monthlyEmi == 0 && receipt.totalInterest == 0 && receipt.totalRepayment == 0
                     && receipt.schedule == [] && receipt.transferStatus == None)
  {
    var s1 := AfterValidation(InitialState(r));
    if s1.validationPassed {
      var s2 := AfterSchedule(s1).value;
      var s3 := AfterTransfer(s2, reference);
    }
  }

  /** The trail of a state whose validation, schedule and transfer either all left their mark or stopped in order. */
  lemma TrailShape(s: State)
    requires s.status !in ON_THE_WAY
    ensures Linked(TransitionHistory(s)) <==> !(s.validationPassed && HasTransaction(s) && !HasInstallments(s))
    ensures !s.validationPassed ==> Statuses(TransitionHistory(s)) == [PENDING, s.status]
    ensures s.validationPassed && HasInstallments(s) ==>
              Statuses(TransitionHistory(s)) ==
              [PENDING, VALIDATED, SCHEDULED] + (if HasTransaction(s) then [TRANSFER_INITIATED] else []) + [s.status]
  {
    var h := TransitionHistory(s);
    if !s.validationPassed {
      assert h == [Transition(None, PENDING), Transition(Some(PENDING), s.status)];
    } else if HasInstallments(s) {
      var steps := [Transition(None, PENDING), Transition(Some(PENDING), VALIDATED),
                    Transition(Some(VALIDATED), SCHEDULED)];
      if HasTransaction(s) {
        assert h == steps + [Transition(Some(SCHEDULED), TRANSFER_INITIATED),
                             Transition(Some(TRANSFER_INITIATED), s.status)];
      } else {
        assert h == steps + [Transition(Some(SCHEDULED), s.status)];
      }
    } else if HasTransaction(s) {
      assert h[2] == Transition(Some(SCHEDULED), TRANSFER_INITIATED) && h[1].to == VALIDATED;
    } else {
      assert h == [Transition(None, PENDING), Transition(Some(PENDING), VALIDATED),
                   Transition(Some(VALIDATED), s.status)];
    }
  }

  /** The trail of a state that has no schedule, or is still on its way. */
  lemma OtherTrails(s: State)
    ensures s.status !in ON_THE_WAY && s.validationPassed && !HasInstallments(s) ==>
              TransitionHistory(s)
              == [Transition(None, PENDING), Transition(Some(PENDING), VALIDATED)]
                 + (if HasTransaction(s)
                    then [Transition(Some(SCHEDULED), TRANSFER_INITIATED),
                          Transition(Some(TRANSFER_INITIATED), s.status)]
                    else [Transition(Some(VALIDATED), s.status)])
    ensures s.status in ON_THE_WAY && !s.validationPassed ==> TransitionHistory(s) == [Transition(None, PENDING)]
    ensures s.status in ON_THE_WAY && s.validationPassed && HasInstallments(s) ==>
              Statuses(TransitionHistory(s))
              == [PENDING, VALIDATED, SCHEDULED] + (if HasTransaction(s) then [TRANSFER_INITIATED] else [])
  {
  }

  /** Audit trail: for tenures of at least a month it follows the request's road, step linked to step,
      and ends at the status on the receipt. */
  lemma AuditTrailIsAChain(r: Request, reference: string)
    requires r.tenure >= 1 && RunGraph(r, reference).Success?
    ensures var s := RunGraph(r, reference).value;
            && Linked(TransitionHistory(s))
            && Statuses(TransitionHistory(s)) == Road(r)
            && s.receipt.Some? && Road(r)[|Road(r)| - 1] == s.receipt.value.status
  {
    ReceiptTellsTheOutcome(r, reference);
    TrailShape(RunGraph(r, reference).value);
  }

  /** A negative tenure passes validation, since only zero is falsy, and gets an empty schedule. The trail is then
      broken exactly when money also leaves: it reads SCHEDULED where no such step was recorded. */
  lemma TrailBreaksIff(r: Request, reference: string)
    requires RunGraph(r, reference).Success?
    ensures Linked(TransitionHistory(RunGraph(r, reference).value)) <==> !(r.tenure < 0 && Pays(r))
  {
    ReceiptTellsTheOutcome(r, reference);
    TrailShape(RunGraph(r, reference).value);
  }

  /** It happens: every interest-free request that pays over a negative tenure leaves a broken trail. */
  lemma NegativeTenuresBreakTheTrail(r: Request, reference: string)
    requires r.tenure < 0 && r.rate == 0.0 && Pays(r)
    ensures RunGraph(r, reference).Success? && !Linked(TransitionHistory(RunGraph(r, reference).value))
  {
    var plan := ScheduleOf(r.approvedAmount, r.rate, r.tenure);
    assert plan.Success?;
    TrailBreaksIff(r, reference);
  }

  /** Validation and schedule never raise on a loan a lender would write. */
  lemma LoansNeverRaise(r: Request, reference: string)
    requires r.tenure >= 1 && r.rate >= 0.0
    ensures RunGraph(r, reference).Success?
  {
    EmiFormulaIsAnnuity(r.approvedAmount, r.rate, r.tenure);
  }
}
