/** The loan-level calculations as they run against the database: each takes the caller's
    loan object, reads the CashFlow table, assigns fields on the object and saves it.
    Each is proved to do what the matching function of `Derivation` describes. */
module Services {
  import opened Models
  import opened Queries
  import opened Xirr
  import opened Derivation
  import opened Store

  /** The caller ends up with `updated`, sees `raised` propagate, and the Loan table goes
      from `before` to `after`, exactly as outcome `o` of a calculation on `loan` says. */
  predicate Performs(o: Outcome, loan: LoanRow, updated: LoanRow, raised: Option<Error>,
                     before: map<string, LoanRow>, after: map<string, LoanRow>)
  {
    updated == o.Object(loan) && raised == o.raised && after == o.Persist(before)
  }

  method CalculateInvestmentDate(db: Database, loan: LoanRow) returns (updated: LoanRow)
    modifies db
    ensures Performs(InvestmentDate(loan, old(db.flows)), loan, updated, None, old(db.loans), db.loans)
    ensures db.flows == old(db.flows)
  {
    updated := loan;
    var funding := Last(db.flows, loan.identifier, FUNDING);
    if funding.Some? {
      updated := updated.(investmentDate := Some(funding.value.referenceDate));
      db.Save(updated);
    }
  }

  method CalculateInvestedAmount(db: Database, loan: LoanRow) returns (updated: LoanRow)
    modifies db
    ensures Performs(InvestedAmount(loan, old(db.flows)), loan, updated, None, old(db.loans), db.loans)
    ensures db.flows == old(db.flows)
  {
    updated := loan;
    var funding := Last(db.flows, loan.identifier, FUNDING);
    if funding.Some? {
      updated := updated.(investedAmount := Some(Abs(funding.value.amount)));
      db.Save(updated);
    }
  }

  method CalculateExpectedInterestAmount(db: Database, loan: LoanRow) returns (updated: LoanRow, raised: Option<Error>)
    modifies db
    ensures Performs(ExpectedInterest(loan), loan, updated, raised, old(db.loans), db.loans)
    ensures db.flows == old(db.flows)
  {
    updated, raised := loan, None;
    if loan.investedAmount.None? {
      raised := Some(NullOperand);
      return;
    }
    if loan.totalAmount == 0.0 {
      raised := Some(DivisionByZero);
      return;
    }
    var share := loan.totalExpectedInterestAmount * (loan.investedAmount.value / loan.totalAmount);
    assert share == ProRata(loan.totalExpectedInterestAmount, loan.investedAmount.value, loan.totalAmount);
    updated := updated.(expectedInterestAmount := Some(share));
    db.Save(updated);
  }

  method CalculateExpectedIrr(db: Database, loan: LoanRow, xirr: Solver) returns (updated: LoanRow, raised: Option<Error>)
    modifies db
    ensures Performs(ExpectedIrr(loan, old(db.flows), xirr), loan, updated, raised, old(db.loans), db.loans)
    ensures db.flows == old(db.flows)
  {
    updated, raised := loan, None;
    var funding := Last(db.flows, loan.identifier, FUNDING);
    if funding.None? {
      raised := Some(NoFundingFlow);
      return;
    }
    if loan.investedAmount.None? || loan.expectedInterestAmount.None? {
      raised := Some(NullOperand);
      return;
    }
    var input := [(funding.value.referenceDate, funding.value.amount),
                  (loan.maturityDate, loan.investedAmount.value + loan.expectedInterestAmount.value)];
    var rate := Stored(xirr(input));
    if rate.Err? {
      raised := Some(rate.error);
    } else {
      updated := updated.(expectedIrr := rate.value);
      db.Save(updated);
    }
  }

  /** The append loop that builds the realized-IRR list: the funding flow first, then one
      entry per repayment, in order. */
  method BuildRealizedIrrInput(funding: CashFlow, repayments: seq<CashFlow>) returns (input: seq<DatedAmount>)
    ensures |input| == 1 + |repayments|
    ensures input[0] == (funding.referenceDate, funding.amount)
    ensures forall k :: 0 <= k < |repayments| ==>
              input[k + 1] == (repayments[k].referenceDate, repayments[k].amount)
  {
    input := [(funding.referenceDate, funding.amount)];
    for i := 0 to |repayments|
      invariant |input| == 1 + i
      invariant input[0] == (funding.referenceDate, funding.amount)
      invariant forall k :: 0 <= k < i ==> input[k + 1] == (repayments[k].referenceDate, repayments[k].amount)
    {
      input := input + [(repayments[i].referenceDate, repayments[i].amount)];
    }
  }

  method CalculateRealizedIrr(db: Database, loan: LoanRow, xirr: Solver) returns (updated: LoanRow, raised: Option<Error>)
    modifies db
    ensures Performs(RealizedIrr(loan, old(db.flows), xirr), loan, updated, raised, old(db.loans), db.loans)
    ensures db.flows == old(db.flows)
  {
    updated, raised := loan, None;
    if loan.isClosed {
      var funding := Last(db.flows, loan.identifier, FUNDING);
      if funding.None? {
        raised := Some(NoFundingFlow);
        return;
      }
      var repayments := Filter(db.flows, loan.identifier, REPAYMENT);
      var input := BuildRealizedIrrInput(funding.value, repayments);
      assert RealizedIrrInput(loan.identifier, db.flows) == Ok(input) by {
        var expected := [Entry(funding.value)] + Entries(repayments);
        forall k | 0 <= k < |input| ensures input[k] == expected[k] {
          if k > 0 {
            assert expected[k] == Entries(repayments)[k - 1];
          }
        }
        assert input == expected;
      }
      var rate := Stored(xirr(input));
      if rate.Err? {
        raised := Some(rate.error);
      } else {
        updated := updated.(realizedIrr := rate.value);
        db.Save(updated);
      }
    }
  }

  /** The loan `calculate_is_closed` works on: the object it was given, or else the one
      stored under the given identifier, which must exist. */
  function Target(loan: Option<LoanRow>, loanIdentifier: Option<string>, loans: map<string, LoanRow>): (r: Result<LoanRow>)
    ensures loan.Some? ==> r == Ok(loan.value)
    ensures loan.None? ==>
              (r.Ok? <==> loanIdentifier.Some? && loanIdentifier.value in loans)
    ensures loan.None? && r.Ok? ==> r.value == loans[loanIdentifier.value]
    ensures r.Err? ==> r.error == LoanNotFound
  {
    if loan.Some? then Ok(loan.value)
    else if loanIdentifier.Some? && loanIdentifier.value in loans then Ok(loans[loanIdentifier.value])
    else Err(LoanNotFound)
  }

  method CalculateIsClosed(db: Database, loan: Option<LoanRow>, loanIdentifier: Option<string>, xirr: Solver)
    returns (updated: Option<LoanRow>, raised: Option<Error>)
    modifies db
    ensures db.flows == old(db.flows)
    ensures var target := Target(loan, loanIdentifier, old(db.loans));
            && (target.Err? ==> updated.None? && raised == Some(LoanNotFound) && db.loans == old(db.loans))
            && (target.Ok? ==>
                  updated.Some?
                  && Performs(IsClosed(target.value, old(db.flows), xirr), target.value, updated.value, raised,
                              old(db.loans), db.loans))
  {
    updated, raised := None, None;
    var current: LoanRow;
    if loan.Some? {
      current := loan.value;
    } else if loanIdentifier.Some? && loanIdentifier.value in db.loans {
      current := db.loans[loanIdentifier.value];
    } else {
      raised := Some(LoanNotFound);
      return;
    }
    updated := Some(current);
    var totalRepayment := Total(db.flows, current.identifier, REPAYMENT);
    if totalRepayment.Some? && totalRepayment.value != 0.0 {
      if current.investedAmount.None? || current.expectedInterestAmount.None? {
        raised := Some(NullOperand);
        return;
      }
      var expectedAmount := current.investedAmount.value + current.expectedInterestAmount.value;
      if totalRepayment.value >= expectedAmount {
        current := current.(isClosed := true);
        db.Save(current);
        current, raised := CalculateRealizedIrr(db, current, xirr);
      } else {
        current := current.(isClosed := false);
        db.Save(current);
      }
      updated := Some(current);
    }
  }
}
