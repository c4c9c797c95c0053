/** The Loan and CashFlow tables: their row shapes, the constraints their field
    declarations impose, and the cascading delete from a loan to its cash flows. */
module Models {

  datatype Option<+T> = None | Some(value: T)

  /** Calendar dates, as day ordinals. */
  type Date = int

  /** The exceptions the core lets propagate. */
  datatype Error =
    | NoFundingFlow        // attribute access on the missing result of `.last()`
    | NullOperand          // arithmetic on a derived field that is still null
    | DivisionByZero       // `total_amount` is zero
    | InvalidPayments      // raised by the IRR solver
    | LoanNotFound         // `Loan.DoesNotExist`
    | DuplicateIdentifier  // the unique constraint on `identifier`

  datatype Result<+T> = Ok(value: T) | Err(error: Error)

  /** The two choices of the cash-flow `type` column. */
  const FUNDING: string := "Funding"
  const REPAYMENT: string := "Repayment"

  /** A row of the Loan table. The last six fields are derived and nullable. */
  datatype LoanRow = LoanRow(
    identifier: string,
    issueDate: Date,
    totalAmount: real,
    rating: int,
    maturityDate: Date,
    totalExpectedInterestAmount: real,
    investmentDate: Option<Date>,
    investedAmount: Option<real>,
    expectedInterestAmount: Option<real>,
    isClosed: bool,
    expectedIrr: Option<real>,
    realizedIrr: Option<real>)

  /** The six columns a loan is created from. */
  datatype LoanInput = LoanInput(
    identifier: string,
    issueDate: Date,
    totalAmount: real,
    rating: int,
    maturityDate: Date,
    totalExpectedInterestAmount: real)

  /** A row of the CashFlow table; the reference to its loan is by identifier and may be null. */
  datatype CashFlow = CashFlow(
    referenceDate: Date,
    kind: string,
    amount: real,
    loanIdentifier: Option<string>)

  /** The whole store: loans keyed by identifier, cash flows in primary-key order. */
  datatype Tables = Tables(loans: map<string, LoanRow>, flows: seq<CashFlow>)

  /** The input columns of a loan row. */
  function InputOf(row: LoanRow): LoanInput {
    LoanInput(row.identifier, row.issueDate, row.totalAmount, row.rating,
              row.maturityDate, row.totalExpectedInterestAmount)
  }

  /** No derived field has been computed yet: the column defaults. */
  predicate Underived(row: LoanRow) {
    && row.investmentDate.None?
    && row.investedAmount.None?
    && row.expectedInterestAmount.None?
    && !row.isClosed
    && row.expectedIrr.None?
    && row.realizedIrr.None?
  }

  /** `Loan.objects.create` with the six input columns: every other field takes its default. */
  function NewLoan(input: LoanInput): (r: LoanRow)
    ensures InputOf(r) == input
    ensures Underived(r)
  {
    LoanRow(input.identifier, input.issueDate, input.totalAmount, input.rating,
            input.maturityDate, input.totalExpectedInterestAmount,
            None, None, None, false, None, None)
  }

  /** The `choices` of the `rating` column. */
  predicate ValidRating(rating: int) {
    1 <= rating <= 9
  }

  /** The `choices` of the cash-flow `type` column. */
  predicate ValidKind(kind: string) {
    kind == FUNDING || kind == REPAYMENT
  }

  /** Every loan is stored under its own identifier, so identifiers are unique. */
  predicate KeyedByIdentifier(loans: map<string, LoanRow>) {
    forall id :: id in loans ==> loans[id].identifier == id
  }

  /** Every non-null loan reference of a cash flow names a stored loan. */
  predicate ReferencesResolve(t: Tables) {
    forall c :: c in t.flows && c.loanIdentifier.Some? ==> c.loanIdentifier.value in t.loans
  }

  /** The constraints the database enforces: unique identifier and the foreign key. */
  predicate Consistent(t: Tables) {
    KeyedByIdentifier(t.loans) && ReferencesResolve(t)
  }

  /** The `choices` declared on the fields, which form and serializer validation enforce
      but plain record creation does not. */
  predicate ChoicesRespected(t: Tables) {
    && (forall id :: id in t.loans ==> ValidRating(t.loans[id].rating))
    && (forall c :: c in t.flows ==> ValidKind(c.kind))
  }

  /** The cash flows that survive deleting loan `id`: all others, in their order. */
  function FlowsNotOf(flows: seq<CashFlow>, id: string): (r: seq<CashFlow>)
    ensures |r| <= |flows|
    ensures forall c :: c in r <==> c in flows && c.loanIdentifier != Some(id)
    ensures forall c: CashFlow :: c.loanIdentifier != Some(id) ==> multiset(r)[c] == multiset(flows)[c]
  {
    if flows == [] then []
    else
      var rest := FlowsNotOf(flows[1..], id);
      assert flows == [flows[0]] + flows[1..];
      if flows[0].loanIdentifier == Some(id) then rest else [flows[0]] + rest
  }

  /** The surviving flows keep their relative order: filtering a concatenation filters
      each part and keeps the parts in sequence. */
  lemma {:induction false} FlowsNotOfAppend(a: seq<CashFlow>, b: seq<CashFlow>, id: string)
    ensures FlowsNotOf(a + b, id) == FlowsNotOf(a, id) + FlowsNotOf(b, id)
    decreases |a|
  {
    if a != [] {
      assert (a + b)[1..] == a[1..] + b;
      FlowsNotOfAppend(a[1..], b, id);
    } else {
      assert a + b == b;
    }
  }

  /** Deleting loan `id`: the `CASCADE` rule deletes exactly the cash flows referencing it. */
  function CascadeDelete(t: Tables, id: string): (r: Tables)
    ensures r.loans.Keys == t.loans.Keys - {id}
    ensures forall k :: k in r.loans ==> r.loans[k] == t.loans[k]
    ensures forall c :: c in r.flows ==> c.loanIdentifier != Some(id)
    ensures forall c: CashFlow :: c.loanIdentifier != Some(id) ==> multiset(r.flows)[c] == multiset(t.flows)[c]
  {
    Tables(t.loans - {id}, FlowsNotOf(t.flows, id))
  }

  /** The cascade keeps the database constraints and the field choices. */
  lemma CascadeDeleteKeepsConstraints(t: Tables, id: string)
    ensures Consistent(t) ==> Consistent(CascadeDelete(t, id))
    ensures ChoicesRespected(t) ==> ChoicesRespected(CascadeDelete(t, id))
  {
    var r := CascadeDelete(t, id);
    if Consistent(t) {
      forall c | c in r.flows && c.loanIdentifier.Some?
        ensures c.loanIdentifier.value in r.loans
      {
        assert c in t.flows;
      }
    }
  }
}
