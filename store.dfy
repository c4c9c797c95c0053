/** The database the services and the ingestion task change: the Loan table keyed by
    identifier and the CashFlow table in primary-key order. */
module Store {
  import opened Models

  class Database {
    var loans: map<string, LoanRow>
    var flows: seq<CashFlow>

    constructor ()
      ensures loans == map[] && flows == []
    {
      loans := map[];
      flows := [];
    }

    /** The contents of both tables. */
    function Snapshot(): Tables
      reads this
    {
      Tables(loans, flows)
    }

    /** `loan.save()`: writes the row under its identifier, replacing what was stored there. */
    method Save(row: LoanRow)
      modifies this
      ensures loans == old(loans)[row.identifier := row]
      ensures flows == old(flows)
    {
      loans := loans[row.identifier := row];
    }

    /** `Loan.objects.create` with the six input columns: refused by the unique
        constraint when the identifier is taken, otherwise a new row with the defaults. */
    method CreateLoan(input: LoanInput) returns (raised: Option<Error>)
      modifies this
      ensures input.identifier in old(loans) ==> raised == Some(DuplicateIdentifier) && loans == old(loans)
      ensures input.identifier !in old(loans) ==> raised.None? && loans == old(loans)[input.identifier := NewLoan(input)]
      ensures flows == old(flows)
    {
      if input.identifier in loans {
        return Some(DuplicateIdentifier);
      }
      loans := loans[input.identifier := NewLoan(input)];
      return None;
    }

    /** `CashFlow.objects.create`: the new row takes the next primary key. */
    method CreateFlow(flow: CashFlow)
      modifies this
      ensures flows == old(flows) + [flow]
      ensures loans == old(loans)
    {
      flows := flows + [flow];
    }
  }
}
