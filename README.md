# Loan metrics and bulk loading of investor_api, in Dafny

This project models the core of the `investor_api` Django application. The core has
three parts:

- the `Loan` and `CashFlow` tables;
- the six loan calculations in `investor_api/services.py`. They fill in a loan's
  investment date, invested amount, expected interest, expected and realized IRR, and
  whether it is closed;
- the bulk loader `process_csv` in `investor_api/tasks.py`.

The model has these modules:

- `Models` (`models.dfy`): the row shapes, the constraints the field declarations
  impose, and the cascading delete from a loan to its cash flows.
- `Queries` (`queries.dfy`): the three cash-flow queries the services issue:
  - the filter by loan and type;
  - `.last()` on it;
  - the `Sum("amount")` aggregate.

  The CashFlow table is a sequence in primary-key order. `.last()` on an unordered
  queryset therefore takes the last matching element.
- `Xirr` (`xirr.dfy`): the boundary of the external IRR solver. A solver is any function
  from a dated amount list to a rate, to no rate, or to a rejection. Each service
  receives it as a parameter.
- `Derivation` (`derivation.dfy`): what each calculation does, as a function of the loan
  object and the CashFlow table. The result is an `Outcome` with two parts:
  - the row the calculation saved last;
  - the exception it let propagate.

  Both parts are needed because `calculate_is_closed` saves `is_closed = True` and only
  then runs the realized-IRR calculation, which can raise.
- `Store` (`store.dfy`): the database as a class with a `loans` map keyed by identifier
  and a `flows` sequence. It has `save()`, `Loan.objects.create` and
  `CashFlow.objects.create`.
- `Services` (`services.dfy`): the six calculations as methods on the database. Each
  takes the caller's loan object (a value) and returns the object as the caller holds it
  afterwards. Each is proved to do exactly what its `Derivation` function says, to the
  returned object, the propagated exception and the Loan table. None of them touches
  the CashFlow table.
- `Tasks` (`tasks.dfy`): `process_csv` as a method with the source's two loops. It is
  proved equal to the pure `Ingest`, and `Ingest` has these lemmas:
  - where each loop stops;
  - what it creates;
  - that the database constraints and the field choices are kept.

Exceptions are values of the `Error` datatype:

- `NoFundingFlow`: attribute access on the `None` that `.last()` returns.
- `NullOperand`: arithmetic on a null field.
- `DivisionByZero`.
- `InvalidPayments`: the solver raises.
- `LoanNotFound`: `DoesNotExist`.
- `DuplicateIdentifier`: the unique constraint refuses a row.

Dates are day ordinals (`int`) and amounts are `real`.

The source differs from a natural reading of the application's design in the following
ways. The model follows the source:

- `process_csv` only inserts rows. It runs no calculation on the loaded loans.
- A loan or cash-flow row that fails stops the task with an exception. Every row
  written before it stays, because there is no transaction.
- A duplicate loan identifier raises through the unique constraint. An unknown loan
  identifier raises `DoesNotExist`. Neither row is skipped.
- `process_csv` does not check the declared `choices` on `rating` and `type`
  (`Tasks.ChoicesNotEnforced`).
- A null `invested_amount` or `expected_interest_amount` in `calculate_is_closed` raises.
  It is not treated as an unreachable payoff.
- When `calculate_is_closed` sets `is_closed = False`, including on a loan that was
  closed, `realized_irr` is left as it was.
- The realized-IRR list lists the Repayment flows in primary-key order. It is not sorted
  by date, and it may contain no repayment at all.
- Funding amounts keep their stored sign in both IRR lists. Only `invested_amount` takes
  the absolute value.

## Model

| member | source | states |
|---|---|---|
| Models.NewLoan | investor_api/models.py:4-16 | a loan created from its six input columns keeps them, and every derived field is null with `is_closed` false |
| Models.FlowsNotOf | investor_api/models.py:26-29 | the flows that survive are exactly those not referencing the loan, each with its original multiplicity |
| Models.CascadeDelete | investor_api/models.py:26-29 | deleting a loan removes exactly that key and exactly the cash flows referencing it; every other loan and every other flow (with multiplicity) stays |
| Models.FlowsNotOfAppend | investor_api/models.py:26-29 | the surviving flows keep their relative (primary-key) order: the cascade on a concatenation is the cascade on each part, in sequence |
| Models.ValidRating | investor_api/models.py:8 | a rating is one of the declared choices 1 to 9 |
| Models.ValidKind | investor_api/models.py:21-24 | a cash-flow type is one of the declared choices Funding and Repayment |
| Models.KeyedByIdentifier | investor_api/models.py:5 | every loan is stored under its own identifier, so identifiers are unique |
| Models.ReferencesResolve | investor_api/models.py:26-31 | every non-null loan reference of a cash flow names a stored loan; a null reference is allowed |
| Models.Consistent | investor_api/models.py:4-31 | the database constraints together: unique identifiers and the foreign key |
| Models.CascadeDeleteKeepsConstraints | investor_api/models.py:4-31 | the cascade keeps identifiers unique, keeps every non-null loan reference resolvable, and keeps the field choices |
| Queries.Filter | investor_api/services.py:52-54 | the `filter(loan_identifier=…, type=…)` queryset in primary-key order; its own contract only bounds its length, and its contents and order are stated by `Queries.FilterMembers` and `Queries.FilterAppend` |
| Queries.FilterMembers | investor_api/services.py:52-54 | the filtered queryset holds exactly the rows of the table that match loan and type |
| Queries.FilterAppend | investor_api/services.py:52-54 | a new row extends the queryset at its end exactly when it matches, so the queryset keeps primary-key order |
| Queries.Last | investor_api/services.py:7-9 | `.last()` is null exactly when no row matches; otherwise it is the matching row with the highest primary key |
| Queries.LastMatchExists | investor_api/services.py:7-9 | when some row matches, a last matching row exists |
| Queries.FilterCons | investor_api/services.py:52-54 | a row placed before the others opens the queryset exactly when it matches |
| Queries.CascadeKeepsOtherQueries | investor_api/models.py:26-29 | deleting a loan leaves every other loan's filtered queryset, `.last()` and Sum aggregate exactly as they were, order included |
| Queries.Total | investor_api/services.py:69-71 | the Sum aggregate is null exactly when no row matches |
| Queries.TotalAppend | investor_api/services.py:69-71 | a new matching row adds its amount to the aggregate (null counting as nothing); any other row leaves it unchanged |
| Xirr.Stored | investor_api/services.py:43 | the solver's rate is stored as is, no solution is stored as null, and a rejection raises instead of storing |
| Derivation.Abs | investor_api/services.py:21 | the magnitude is non-negative and equals the amount or its negation |
| Derivation.Entries | investor_api/services.py:58-59 | one solver entry per row, in the same order, each the row's date and signed amount |
| Derivation.InvestmentDate | investor_api/services.py:6-12 | never raises; saves exactly when a Funding flow exists, and then sets the investment date to the date of the last one |
| Derivation.InvestedAmount | investor_api/services.py:15-22 | never raises; saves exactly when a Funding flow exists, and then sets the invested amount to the magnitude of the last one, which is non-negative |
| Derivation.DateAndAmountFromSameFunding | investor_api/services.py:6-22 | the investment date and the invested amount come from the same Funding flow |
| Derivation.ExpectedInterest | investor_api/services.py:25-32 | raises on a null invested amount or a zero total amount, and on nothing else; otherwise saves the loan with only the expected interest changed, to the pro-rata share |
| Derivation.ProRata | investor_api/services.py:29-31 | the share `total_expected_interest_amount * (invested_amount / total_amount)`, defined for a non-zero total; its properties are `Derivation.ProRataLinear` and `Derivation.ProRataBounds` |
| Derivation.ProRataLinear | investor_api/services.py:29-31 | the pro-rata share is additive and scales with the invested amount |
| Derivation.ProRataBounds | investor_api/services.py:29-31 | investing the whole loan earns the whole interest; investing part of it earns between nothing and the whole |
| Derivation.ExpectedIrrInput | investor_api/services.py:36-41 | with no Funding flow it fails, and with a null operand it fails; otherwise it is the two entries: the last Funding flow with its stored sign, then maturity with invested amount plus expected interest |
| Derivation.ExpectedIrr | investor_api/services.py:35-44 | a failing input list or a rejection raises without saving; otherwise the loan is saved with only `expected_irr` changed, to the solver's answer on that list |
| Derivation.RealizedIrrInput | investor_api/services.py:49-59 | it fails exactly when there is no Funding flow; otherwise it has 1 + (number of repayments) entries: the last Funding flow, then each Repayment flow in primary-key order |
| Derivation.RealizedIrr | investor_api/services.py:47-62 | an open loan is left alone; for a closed one, a missing funding or a rejection raises without saving, and otherwise only `realized_irr` changes, to the solver's answer |
| Derivation.Decisive | investor_api/services.py:73 | `if total_repayment:` passes exactly when the aggregate is not null and not zero |
| Derivation.IsClosed | investor_api/services.py:69-81 | a null or zero repayment total changes nothing; a null operand raises; otherwise `is_closed` becomes whether the total reaches the payoff. Closing saves the loan closed, raises what `RealizedIrr` on the closed loan raises, and when nothing is raised stores exactly the row `RealizedIrr` saves, so `realized_irr` is the solver's recomputed answer. Reopening changes nothing else |
| Derivation.IsClosedIdempotent | investor_api/services.py:69-81 | evaluating closure again on the loan it left behind, with the same flows and solver, raises the same exception and leaves the same loan |
| Derivation.ClosedStaysClosed | investor_api/services.py:69-78 | with a positive payoff, a closed loan stays closed when a further non-negative repayment is recorded |
| Derivation.ScenarioTotals | investor_api/tests/test_services.py:89-108 | the fixture's repayment totals are 250, and 810 after the second repayment |
| Derivation.ScenarioRepayments | investor_api/tests/test_services.py:89-108 | the fixture's Repayment queryset is the two repayments, in order |
| Derivation.ScenarioRealizedInput | investor_api/tests/test_services.py:99-109 | the fixture's realized-IRR list is (1, -500), (29, 250), (366, 560) |
| Derivation.ClosureScenario | investor_api/tests/test_services.py:89-108 | with payoff 440, a repayment total of 250 leaves the loan open and its realized IRR untouched; 810 closes it and stores the solver's rate on the three-entry list |
| Store.Database.Save | investor_api/services.py:12 | `save()` writes the row under its identifier and changes nothing else |
| Store.Database.CreateLoan | investor_api/tasks.py:14-21 | a taken identifier raises and changes nothing; otherwise it inserts the new loan with default derived fields |
| Store.Database.CreateFlow | investor_api/tasks.py:26-31 | the new cash flow is appended after every existing one |
| Services.CalculateInvestmentDate | investor_api/services.py:6-12 | the caller's object and the Loan table end as `InvestmentDate` says; cash flows are untouched |
| Services.CalculateInvestedAmount | investor_api/services.py:15-22 | the caller's object and the Loan table end as `InvestedAmount` says; cash flows are untouched |
| Services.CalculateExpectedInterestAmount | investor_api/services.py:25-32 | the object, the raised exception and the Loan table are those of `ExpectedInterest` |
| Services.CalculateExpectedIrr | investor_api/services.py:35-44 | the object, the raised exception and the Loan table are those of `ExpectedIrr` on the stored cash flows |
| Services.BuildRealizedIrrInput | investor_api/services.py:56-59 | the append loop yields the funding entry followed by one entry per repayment, in order |
| Services.CalculateRealizedIrr | investor_api/services.py:47-62 | the object, the raised exception and the Loan table are those of `RealizedIrr` on the stored cash flows |
| Services.Target | investor_api/services.py:65-67 | the object given is used; without one, the stored loan with the identifier is used, and if there is none `LoanNotFound` is raised |
| Services.CalculateIsClosed | investor_api/services.py:65-81 | an unknown loan raises `LoanNotFound` and changes nothing; otherwise the object, the exception and the Loan table are those of `IsClosed` on the target loan |
| Tasks.NewFlow | investor_api/tasks.py:26-31 | the cash flow created from a row takes the row's date, type and amount and references the loan the row names |
| Tasks.LoadLoans | investor_api/tasks.py:13-21 | the loan loop as a function of the stored loans and the rows: the Loan table afterwards and the index of the refused row; its own contract only bounds that index, and the `Tasks.LoadLoans*` lemmas state what it computes |
| Tasks.LoadLoansStopsAtFirstClash | investor_api/tasks.py:13-21 | the loan loop stops at a row refused by the unique constraint, and no earlier row is refused |
| Tasks.LoadLoansSucceedsIff | investor_api/tasks.py:13-21 | the loan loop completes exactly when no row repeats a stored or earlier identifier |
| Tasks.LoadLoansTable | investor_api/tasks.py:13-21 | the Loan table gains exactly the identifiers of the rows before the refused one, and stored loans stay as they were |
| Tasks.LoadLoansCreates | investor_api/tasks.py:14-21 | each row before the refused one is stored under its identifier with its input columns and default derived fields |
| Tasks.LoadLoansSticks | investor_api/tasks.py:13-21 | once a row is refused, no later row is read |
| Tasks.LoadLoansOrigin | investor_api/tasks.py:13-21 | every new loan was created from a row carrying its identifier |
| Tasks.AppendFlows | investor_api/tasks.py:24-31 | the cash-flow loop as a function: the CashFlow table afterwards and the index of the row whose loan is missing; its own contract only bounds that index, and `Tasks.AppendFlowsSpec` states what it computes |
| Tasks.AppendFlowsSpec | investor_api/tasks.py:24-31 | the cash-flow loop completes exactly when every row names an existing loan. It stops at the first row that does not. The earlier rows are appended in file order after the stored flows, each referencing its loan |
| Tasks.AppendFlowsSticks | investor_api/tasks.py:24-25 | once a row's loan is not found, no later row is read |
| Tasks.AppendFlowsOrigin | investor_api/tasks.py:24-31 | every cash flow afterwards was stored before or comes from a row whose loan exists |
| Tasks.Ingest | investor_api/tasks.py:7-31 | the only exceptions are a refused identifier and an unknown loan; a refused identifier stops the task before any cash flow is written |
| Tasks.IngestSucceedsIff | investor_api/tasks.py:7-31 | the task completes exactly when no loan row is refused and every cash-flow row names a stored or newly loaded loan |
| Tasks.IngestKeepsConsistent | investor_api/tasks.py:7-31 | whether or not it completes, the task keeps identifiers unique and every loan reference resolvable |
| Tasks.IngestKeepsChoices | investor_api/tasks.py:13-31 | rows whose rating and type are among the declared choices keep the choices respected |
| Tasks.ChoicesNotEnforced | investor_api/tasks.py:14-31 | a rating of 42 and a cash-flow type "Refund" are stored as given |
| Tasks.ProcessCsv | investor_api/tasks.py:7-31 | the two loops leave the tables, and raise the exception, that `Ingest` gives for the tables before the task |

## Left out

- The IRR solver (`pyxirr.xirr`) is a parameter with no numeric content. Rate values such
  as the fixture's 1.1211098911638433 are not modelled.
- FloatField values are exact reals, with no rounding. `float()` conversions are the
  identity.
- Dates are day ordinals; calendar parsing is not modelled.
- CSV parsing (`csv.DictReader`, `StringIO`) and the string-to-date and string-to-number
  coercion of `create` are not modelled. Rows arrive typed. A malformed field, a missing
  column and `max_length` are not modelled.
- The Celery task decorator and the asynchronous dispatch of `process_csv` are not
  modelled.
- The HTTP views, the URL configuration, the serializers and the permission classes are
  not part of this model. This includes the view that calls `calculate_is_closed` after a
  cash-flow POST.
- The cache invalidation that the model tests exercise is not modelled, because no logic
  for it is in the modelled files.
- Other holders of the same loan object are not modelled. The caller's object is a value,
  passed in and returned, so an instance elsewhere that goes stale after `save()` is not
  represented.
- Concurrent tasks or requests on the same loan are not modelled.
- An unordered queryset is modelled as read in primary-key order. The database does not
  promise this, and `.last()` orders by primary key.
- The `choices` of `rating` and `type` are modelled as predicates. The bulk loader does
  not enforce them, and validation by forms or serializers is not modelled.
- Queries.Filter: its own contract is only a length bound. The membership and order
  facts are in `Queries.FilterMembers` and `Queries.FilterAppend`.
- Tasks.LoadLoans and Tasks.AppendFlows: their own contracts only bound the failure
  index. What they compute is stated by the `LoadLoans*` and `AppendFlows*` lemmas.
