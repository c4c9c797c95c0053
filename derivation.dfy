/** What each loan-level calculation does, as a function of the loan object it is given
    and the CashFlow table it reads. Each result says which row the calculation saved
    last (none when it returned without saving) and which exception, if any, it let
    propagate; the loan object the caller holds afterwards equals the last saved row. */
module Derivation {
  import opened Models
  import opened Queries
  import opened Xirr

  datatype Outcome = Outcome(saved: Option<LoanRow>, raised: Option<Error>) {

    /** The caller's loan object after the calculation. */
    function Object(before: LoanRow): LoanRow {
      if saved.Some? then saved.value else before
    }

    /** The Loan table after the calculation: `save()` writes the row under its identifier. */
    function Persist(loans: map<string, LoanRow>): map<string, LoanRow> {
      if saved.Some? then loans[saved.value.identifier := saved.value] else loans
    }
  }

  /** Returned without saving and without raising. */
  const Unchanged: Outcome := Outcome(None, None)

  function Abs(x: real): (r: real)
    ensures r >= 0.0 && (r == x || r == -x)
  {
    if x < 0.0 then -x else x
  }

  /** A cash flow as a solver entry: its date and its amount with the stored sign. */
  function Entry(c: CashFlow): DatedAmount {
    (c.referenceDate, c.amount)
  }

  /** The solver entries of a queryset, one per row, in the same order. */
  function Entries(s: seq<CashFlow>): (r: seq<DatedAmount>)
    ensures |r| == |s|
    ensures forall k :: 0 <= k < |s| ==> r[k] == Entry(s[k])
  {
    if s == [] then [] else Entries(s[..|s| - 1]) + [Entry(s[|s| - 1])]
  }

  // ---------------------------------------------------------------- investment date

  /** `calculate_investment_date`: the date of the loan's last Funding flow, or nothing at all. */
  function InvestmentDate(loan: LoanRow, flows: seq<CashFlow>): (o: Outcome)
    ensures o.raised.None?
    ensures o.saved.None? <==> NoMatch(flows, loan.identifier, FUNDING)
    ensures forall i :: IsLastMatch(flows, loan.identifier, FUNDING, i) ==>
              o.saved == Some(loan.(investmentDate := Some(flows[i].referenceDate)))
  {
    match Last(flows, loan.identifier, FUNDING)
    case None => Unchanged
    case Some(cf) => Outcome(Some(loan.(investmentDate := Some(cf.referenceDate))), None)
  }

  // ---------------------------------------------------------------- invested amount

  /** `calculate_invested_amount`: the magnitude of the loan's last Funding flow, or nothing at all. */
  function InvestedAmount(loan: LoanRow, flows: seq<CashFlow>): (o: Outcome)
    ensures o.raised.None?
    ensures o.saved.None? <==> NoMatch(flows, loan.identifier, FUNDING)
    ensures o.saved.Some? ==> o.saved.value.investedAmount.Some? && o.saved.value.investedAmount.value >= 0.0
    ensures forall i :: IsLastMatch(flows, loan.identifier, FUNDING, i) ==>
              o.saved == Some(loan.(investedAmount := Some(Abs(flows[i].amount))))
  {
    match Last(flows, loan.identifier, FUNDING)
    case None => Unchanged
    case Some(cf) => Outcome(Some(loan.(investedAmount := Some(Abs(cf.amount)))), None)
  }

  /** The investment date and the invested amount always come from the same Funding flow. */
  lemma {:induction false} DateAndAmountFromSameFunding(loan: LoanRow, flows: seq<CashFlow>)
    requires !NoMatch(flows, loan.identifier, FUNDING)
    ensures exists i :: && IsLastMatch(flows, loan.identifier, FUNDING, i)
                        && InvestmentDate(loan, flows).saved.value.investmentDate == Some(flows[i].referenceDate)
                        && InvestedAmount(loan, flows).saved.value.investedAmount == Some(Abs(flows[i].amount))
  {
    LastMatchExists(flows, loan.identifier, FUNDING);
    var i :| IsLastMatch(flows, loan.identifier, FUNDING, i);
    assert InvestmentDate(loan, flows).saved.value.investmentDate == Some(flows[i].referenceDate);
  }

  // ---------------------------------------------------------------- expected interest

  /** The share of the loan's total expected interest that the invested amount earns. */
  function ProRata(totalInterest: real, invested: real, total: real): real
    requires total != 0.0
  {
    totalInterest * (invested / total)
  }

  /** The share is linear in the invested amount. */
  lemma ProRataLinear(totalInterest: real, a: real, b: real, k: real, total: real)
    requires total != 0.0
    ensures ProRata(totalInterest, a + b, total)
         == ProRata(totalInterest, a, total) + ProRata(totalInterest, b, total)
    ensures ProRata(totalInterest, k * a, total) == k * ProRata(totalInterest, a, total)
  {
    assert (a + b) / total == a / total + b / total;
    assert (k * a) / total == k * (a / total);
  }

  /** Investing the whole loan earns the whole expected interest; investing part of it
      earns between nothing and the whole. */
  lemma ProRataBounds(totalInterest: real, invested: real, total: real)
    requires total > 0.0 && 0.0 <= invested <= total && totalInterest >= 0.0
    ensures ProRata(totalInterest, total, total) == totalInterest
    ensures 0.0 <= ProRata(totalInterest, invested, total) <= totalInterest
  {
    var q := invested / total;
    assert total / total == 1.0;
    assert 0.0 <= q <= 1.0;
    assert totalInterest * (1.0 - q) >= 0.0;
  }

  /** `calculate_expected_interest_amount`: raises on a null invested amount or a zero
      total amount, and otherwise always saves the pro-rata interest. */
  function ExpectedInterest(loan: LoanRow): (o: Outcome)
    ensures o.raised == Some(NullOperand) <==> loan.investedAmount.None?
    ensures o.raised == Some(DivisionByZero) <==> loan.investedAmount.Some? && loan.totalAmount == 0.0
    ensures o.raised.Some? ==> o.saved.None? && o.raised.value in {NullOperand, DivisionByZero}
    ensures o.raised.None? ==>
              && o.saved.Some?
              && o.saved.value == loan.(expectedInterestAmount := o.saved.value.expectedInterestAmount)
              && o.saved.value.expectedInterestAmount
                 == Some(ProRata(loan.totalExpectedInterestAmount, loan.investedAmount.value, loan.totalAmount))
  {
    if loan.investedAmount.None? then Outcome(None, Some(NullOperand))
    else if loan.totalAmount == 0.0 then Outcome(None, Some(DivisionByZero))
    else
      var share := ProRata(loan.totalExpectedInterestAmount, loan.investedAmount.value, loan.totalAmount);
      Outcome(Some(loan.(expectedInterestAmount := Some(share))), None)
  }

  // ---------------------------------------------------------------- expected IRR

  /** The list handed to the solver for the expected IRR: the last Funding flow with its
      stored sign, then the maturity date with the invested amount plus expected interest. */
  function ExpectedIrrInput(loan: LoanRow, flows: seq<CashFlow>): (r: Result<seq<DatedAmount>>)
    ensures NoMatch(flows, loan.identifier, FUNDING) ==> r == Err(NoFundingFlow)
    ensures (!NoMatch(flows, loan.identifier, FUNDING)
             && (loan.investedAmount.None? || loan.expectedInterestAmount.None?)) ==> r == Err(NullOperand)
    ensures forall i :: (IsLastMatch(flows, loan.identifier, FUNDING, i)
                         && loan.investedAmount.Some? && loan.expectedInterestAmount.Some?) ==>
              r == Ok([(flows[i].referenceDate, flows[i].amount),
                       (loan.maturityDate, loan.investedAmount.value + loan.expectedInterestAmount.value)])
  {
    match Last(flows, loan.identifier, FUNDING)
    case None => Err(NoFundingFlow)
    case Some(cf) =>
      if loan.investedAmount.None? || loan.expectedInterestAmount.None? then Err(NullOperand)
      else Ok([Entry(cf), (loan.maturityDate, loan.investedAmount.value + loan.expectedInterestAmount.value)])
  }

  /** `calculate_expected_irr`: saves the solver's answer on the two-entry list, or raises
      without saving. */
  function ExpectedIrr(loan: LoanRow, flows: seq<CashFlow>, xirr: Solver): (o: Outcome)
    ensures o.raised.Some? ==> o.saved.None?
    ensures o.saved.Some? ==> o.saved.value == loan.(expectedIrr := o.saved.value.expectedIrr)
    ensures var input := ExpectedIrrInput(loan, flows);
            && (input.Err? ==> o == Outcome(None, Some(input.error)))
            && (input.Ok? && xirr(input.value).Rejected? ==> o == Outcome(None, Some(InvalidPayments)))
            && (input.Ok? && !xirr(input.value).Rejected? ==>
                  o.raised.None? && o.saved.Some? && Ok(o.saved.value.expectedIrr) == Stored(xirr(input.value)))
  {
    match ExpectedIrrInput(loan, flows)
    case Err(e) => Outcome(None, Some(e))
    case Ok(input) =>
      match Stored(xirr(input))
      case Err(e) => Outcome(None, Some(e))
      case Ok(rate) => Outcome(Some(loan.(expectedIrr := rate)), None)
  }

  // ---------------------------------------------------------------- realized IRR

  /** The list handed to the solver for the realized IRR: the last Funding flow, then
      every Repayment flow of the loan in primary-key order, all with their stored signs. */
  function RealizedIrrInput(id: string, flows: seq<CashFlow>): (r: Result<seq<DatedAmount>>)
    ensures r.Err? <==> NoMatch(flows, id, FUNDING)
    ensures r.Err? ==> r.error == NoFundingFlow
    ensures r.Ok? ==> |r.value| == 1 + |Filter(flows, id, REPAYMENT)|
    ensures forall i :: IsLastMatch(flows, id, FUNDING, i) ==> r.Ok? && r.value[0] == Entry(flows[i])
    ensures r.Ok? ==> forall k :: 0 <= k < |Filter(flows, id, REPAYMENT)| ==>
                        r.value[k + 1] == Entry(Filter(flows, id, REPAYMENT)[k])
  {
    match Last(flows, id, FUNDING)
    case None => Err(NoFundingFlow)
    case Some(cf) =>
      var tail := Entries(Filter(flows, id, REPAYMENT));
      assert forall k :: 0 <= k < |tail| ==> ([Entry(cf)] + tail)[k + 1] == tail[k];
      Ok([Entry(cf)] + tail)
  }

  /** `calculate_realized_irr`: nothing for an open loan; for a closed one, saves the
      solver's answer on the funding-then-repayments list, or raises without saving. */
  function RealizedIrr(loan: LoanRow, flows: seq<CashFlow>, xirr: Solver): (o: Outcome)
    ensures !loan.isClosed ==> o == Unchanged
    ensures o.raised.Some? ==> o.saved.None?
    ensures o.saved.Some? ==> o.saved.value == loan.(realizedIrr := o.saved.value.realizedIrr)
    ensures var input := RealizedIrrInput(loan.identifier, flows);
            loan.isClosed ==>
              && (input.Err? ==> o == Outcome(None, Some(NoFundingFlow)))
              && (input.Ok? && xirr(input.value).Rejected? ==> o == Outcome(None, Some(InvalidPayments)))
              && (input.Ok? && !xirr(input.value).Rejected? ==>
                    o.raised.None? && o.saved.Some? && Ok(o.saved.value.realizedIrr) == Stored(xirr(input.value)))
  {
    if !loan.isClosed then Unchanged
    else
      match RealizedIrrInput(loan.identifier, flows)
      case Err(e) => Outcome(None, Some(e))
      case Ok(input) =>
        match Stored(xirr(input))
        case Err(e) => Outcome(None, Some(e))
        case Ok(rate) => Outcome(Some(loan.(realizedIrr := rate)), None)
  }

  // ---------------------------------------------------------------- closure

  /** The repayment total decides the closure: it exists and is not zero. */
  predicate Decisive(total: Option<real>) {
    total.Some? && total.value != 0.0
  }

  /** `calculate_is_closed` on a loan object: with a decisive repayment total and both
      payoff operands set, `is_closed` becomes whether the total reaches the payoff; on
      closing the realized IRR is recomputed, on reopening it is left as it was. */
  function IsClosed(loan: LoanRow, flows: seq<CashFlow>, xirr: Solver): (o: Outcome)
    ensures !Decisive(Total(flows, loan.identifier, REPAYMENT)) ==> o == Unchanged
    ensures (Decisive(Total(flows, loan.identifier, REPAYMENT))
             && (loan.investedAmount.None? || loan.expectedInterestAmount.None?)) ==>
              o == Outcome(None, Some(NullOperand))
    ensures var total := Total(flows, loan.identifier, REPAYMENT);
            Decisive(total) && loan.investedAmount.Some? && loan.expectedInterestAmount.Some? ==>
              var closes := total.value >= loan.investedAmount.value + loan.expectedInterestAmount.value;
              && o.saved.Some?
              && o.saved.value.isClosed == closes
              && (!closes ==> o == Outcome(Some(loan.(isClosed := false)), None))
              && (closes ==>
                    && o.saved.value == loan.(isClosed := true, realizedIrr := o.saved.value.realizedIrr)
                    && o.raised == RealizedIrr(loan.(isClosed := true), flows, xirr).raised
                    && (o.raised.None? ==> o.saved == RealizedIrr(loan.(isClosed := true), flows, xirr).saved)
                    && (o.raised.Some? ==> o.saved.value == loan.(isClosed := true)))
  {
    var total := Total(flows, loan.identifier, REPAYMENT);
    if !Decisive(total) then Unchanged
    else if loan.investedAmount.None? || loan.expectedInterestAmount.None? then Outcome(None, Some(NullOperand))
    else if total.value >= loan.investedAmount.value + loan.expectedInterestAmount.value then
      var closed := loan.(isClosed := true);
      var r := RealizedIrr(closed, flows, xirr);
      Outcome(Some(r.Object(closed)), r.raised)
    else
      Outcome(Some(loan.(isClosed := false)), None)
  }

  /** Re-evaluating the closure of the loan object it left behind, with the same cash
      flows and solver, saves the same row and raises the same exception again. */
  lemma IsClosedIdempotent(loan: LoanRow, flows: seq<CashFlow>, xirr: Solver)
    ensures var o := IsClosed(loan, flows, xirr);
            var again := IsClosed(o.Object(loan), flows, xirr);
            again.raised == o.raised && again.Object(o.Object(loan)) == o.Object(loan)
  {
    var o := IsClosed(loan, flows, xirr);
    var total := Total(flows, loan.identifier, REPAYMENT);
    if Decisive(total) && loan.investedAmount.Some? && loan.expectedInterestAmount.Some?
       && total.value >= loan.investedAmount.value + loan.expectedInterestAmount.value {
      var closed := loan.(isClosed := true);
      var after := o.Object(loan);
      assert after.(isClosed := true) == after;
      assert RealizedIrr(after, flows, xirr).raised == RealizedIrr(closed, flows, xirr).raised;
    }
  }

  /** A closed loan stays closed when another non-negative repayment is recorded for it,
      as long as its payoff is positive. */
  lemma {:induction false} ClosedStaysClosed(loan: LoanRow, flows: seq<CashFlow>, c: CashFlow, xirr: Solver)
    requires loan.investedAmount.Some? && loan.expectedInterestAmount.Some?
    requires loan.investedAmount.value + loan.expectedInterestAmount.value > 0.0
    requires IsClosed(loan, flows, xirr).saved.Some? && IsClosed(loan, flows, xirr).saved.value.isClosed
    requires Matches(c, loan.identifier, REPAYMENT) && c.amount >= 0.0
    ensures IsClosed(loan, flows + [c], xirr).saved.Some?
    ensures IsClosed(loan, flows + [c], xirr).saved.value.isClosed
  {
    TotalAppend(flows, c, loan.identifier, REPAYMENT);
  }

  /** The cash flows of the service tests: a funding of -500 on day 1, repayments of 250
      on day 29 and of 560 on day 366. */
  const ScenarioFunding: CashFlow := CashFlow(1, FUNDING, -500.0, Some("loan1"))
  const ScenarioFirst: CashFlow := CashFlow(29, REPAYMENT, 250.0, Some("loan1"))
  const ScenarioSecond: CashFlow := CashFlow(366, REPAYMENT, 560.0, Some("loan1"))

  lemma ScenarioTotals()
    ensures Total([ScenarioFunding, ScenarioFirst], "loan1", REPAYMENT) == Some(250.0)
    ensures Total([ScenarioFunding, ScenarioFirst, ScenarioSecond], "loan1", REPAYMENT) == Some(810.0)
  {
    var two := [ScenarioFunding, ScenarioFirst];
    assert FUNDING != REPAYMENT;
    assert [ScenarioFunding] == [] + [ScenarioFunding];
    assert two == [ScenarioFunding] + [ScenarioFirst];
    assert two + [ScenarioSecond] == [ScenarioFunding, ScenarioFirst, ScenarioSecond];
    TotalAppend([], ScenarioFunding, "loan1", REPAYMENT);
    TotalAppend([ScenarioFunding], ScenarioFirst, "loan1", REPAYMENT);
    TotalAppend(two, ScenarioSecond, "loan1", REPAYMENT);
  }

  lemma ScenarioRepayments()
    ensures Filter([ScenarioFunding, ScenarioFirst, ScenarioSecond], "loan1", REPAYMENT)
         == [ScenarioFirst, ScenarioSecond]
  {
    var two := [ScenarioFunding, ScenarioFirst];
    assert FUNDING != REPAYMENT;
    assert [ScenarioFunding] == [] + [ScenarioFunding];
    FilterAppend([], ScenarioFunding, "loan1", REPAYMENT);
    assert Filter([ScenarioFunding], "loan1", REPAYMENT) == [];
    assert two == [ScenarioFunding] + [ScenarioFirst];
    FilterAppend([ScenarioFunding], ScenarioFirst, "loan1", REPAYMENT);
    assert Filter(two, "loan1", REPAYMENT) == [ScenarioFirst];
    assert two + [ScenarioSecond] == [ScenarioFunding, ScenarioFirst, ScenarioSecond];
    FilterAppend(two, ScenarioSecond, "loan1", REPAYMENT);
  }

  lemma ScenarioRealizedInput()
    ensures RealizedIrrInput("loan1", [ScenarioFunding, ScenarioFirst, ScenarioSecond])
         == Ok([(1, -500.0), (29, 250.0), (366, 560.0)])
  {
    var three := [ScenarioFunding, ScenarioFirst, ScenarioSecond];
    assert FUNDING != REPAYMENT;
    assert IsLastMatch(three, "loan1", FUNDING, 0);
    ScenarioRepayments();
    var e := Entries([ScenarioFirst, ScenarioSecond]);
    assert e == [(29, 250.0), (366, 560.0)];
    assert RealizedIrrInput("loan1", three) == Ok([(1, -500.0)] + e);
    assert [(1, -500.0)] + e == [(1, -500.0), (29, 250.0), (366, 560.0)];
  }

  /** The closure scenario of the service tests: with a payoff of 400 + 40, the funding and
      the first repayment leave the loan open and its realized IRR untouched; the second
      repayment closes it and stores the solver's rate on all three flows. */
  lemma ClosureScenario(loan: LoanRow, xirr: Solver)
    requires loan.identifier == "loan1" && !loan.isClosed
    requires loan.investedAmount == Some(400.0) && loan.expectedInterestAmount == Some(40.0)
    requires xirr([(1, -500.0), (29, 250.0), (366, 560.0)]).Rate?
    ensures IsClosed(loan, [ScenarioFunding, ScenarioFirst], xirr) == Outcome(Some(loan), None)
    ensures IsClosed(loan, [ScenarioFunding, ScenarioFirst, ScenarioSecond], xirr)
         == Outcome(Some(loan.(isClosed := true,
                               realizedIrr := Some(xirr([(1, -500.0), (29, 250.0), (366, 560.0)]).rate))),
                    None)
  {
    ScenarioTotals();
    ScenarioRealizedInput();
    assert loan.(isClosed := false) == loan;
  }
}
