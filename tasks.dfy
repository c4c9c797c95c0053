/** The bulk load task: one Loan per row of the loan file, then one CashFlow per row of
    the cash-flow file, attached to the loan its row names. Each row is written on its
    own, with no enclosing transaction, so a row that fails stops the task and leaves
    every earlier row in place. The files arrive already parsed into typed rows. */
module Tasks {
  import opened Models
  import opened Store

  /** A row of the cash-flow file. */
  datatype FlowInput = FlowInput(loanIdentifier: string, referenceDate: Date, kind: string, amount: real)

  /** The CashFlow created from a row whose loan was found: it references that loan. */
  function NewFlow(row: FlowInput): CashFlow {
    CashFlow(row.referenceDate, row.kind, row.amount, Some(row.loanIdentifier))
  }

  // ---------------------------------------------------------------- loans

  /** Loan row `j` is refused by the unique constraint: its identifier is already stored
      or an earlier row of the file created it. */
  predicate Clashes(loans: map<string, LoanRow>, rows: seq<LoanInput>, j: int)
    requires 0 <= j < |rows|
  {
    rows[j].identifier in loans || exists i :: 0 <= i < j && rows[i].identifier == rows[j].identifier
  }

  /** No row of the loan file is refused. */
  predicate Fresh(loans: map<string, LoanRow>, rows: seq<LoanInput>) {
    forall j :: 0 <= j < |rows| ==> !Clashes(loans, rows, j)
  }

  /** The identifiers the rows carry. */
  function Ids(rows: seq<LoanInput>): set<string> {
    set i | 0 <= i < |rows| :: rows[i].identifier
  }

  /** The Loan table after the loan loop, and the index of the row that raised, if any. */
  function LoadLoans(loans: map<string, LoanRow>, rows: seq<LoanInput>): (r: (map<string, LoanRow>, Option<nat>))
    ensures r.1.Some? ==> r.1.value < |rows|
    decreases |rows|
  {
    if rows == [] then (loans, None)
    else
      var n := |rows| - 1;
      var (m, failed) := LoadLoans(loans, rows[..n]);
      if failed.Some? then (m, failed)
      else if rows[n].identifier in m then (m, Some(n))
      else (m[rows[n].identifier := NewLoan(rows[n])], None)
  }

  /** Whether row `j` clashes depends only on the rows up to it. */
  lemma ClashesPrefix(loans: map<string, LoanRow>, rows: seq<LoanInput>, k: int, j: int)
    requires 0 <= j < k <= |rows|
    ensures Clashes(loans, rows[..k], j) == Clashes(loans, rows, j)
  {
    if Clashes(loans, rows, j) && rows[j].identifier !in loans {
      var i :| 0 <= i < j && rows[i].identifier == rows[j].identifier;
      assert rows[..k][i] == rows[i];
    }
  }

  /** How many loan rows the loop created: all of them, or those before the refused one. */
  function Loaded(loans: map<string, LoanRow>, rows: seq<LoanInput>): (n: nat)
    ensures n <= |rows|
  {
    var failed := LoadLoans(loans, rows).1;
    if failed.Some? then failed.value else |rows|
  }

  lemma IdsAppend(rows: seq<LoanInput>, last: LoanInput)
    ensures Ids(rows + [last]) == Ids(rows) + {last.identifier}
  {
    var all := rows + [last];
    forall id | id in Ids(all) ensures id in Ids(rows) + {last.identifier} {
      var i :| 0 <= i < |all| && all[i].identifier == id;
      if i < |rows| {
        assert all[i] == rows[i];
        assert rows[i].identifier in Ids(rows);
      }
    }
    forall id | id in Ids(rows) ensures id in Ids(all) {
      var i :| 0 <= i < |rows| && rows[i].identifier == id;
      assert all[i] == rows[i];
      assert all[i].identifier in Ids(all);
    }
    assert all[|rows|] == last;
    assert all[|rows|].identifier in Ids(all);
  }

  /** The loan loop stops at the first refused row: that row clashes and none before it does. */
  lemma {:induction false} LoadLoansStopsAtFirstClash(loans: map<string, LoanRow>, rows: seq<LoanInput>)
    ensures LoadLoans(loans, rows).1.Some? ==> Clashes(loans, rows, LoadLoans(loans, rows).1.value)
    ensures forall j :: 0 <= j < Loaded(loans, rows) ==> !Clashes(loans, rows, j)
    decreases |rows|
  {
    if rows != [] {
      var n := |rows| - 1;
      var init := rows[..n];
      LoadLoansStopsAtFirstClash(loans, init);
      LoadLoansTable(loans, init);
      forall j | 0 <= j < n ensures Clashes(loans, init, j) == Clashes(loans, rows, j) {
        ClashesPrefix(loans, rows, n, j);
      }
      if LoadLoans(loans, init).1.None? {
        assert init[..n] == init;
        var m := LoadLoans(loans, init).0;
        if rows[n].identifier in m && rows[n].identifier !in loans {
          var i :| 0 <= i < n && init[i].identifier == rows[n].identifier;
          assert rows[i] == init[i];
        }
        if Clashes(loans, rows, n) && rows[n].identifier !in loans {
          var i :| 0 <= i < n && rows[i].identifier == rows[n].identifier;
          assert init[i] == rows[i];
        }
      }
    }
  }

  /** The loan loop succeeds exactly when no row of the file is refused. */
  lemma LoadLoansSucceedsIff(loans: map<string, LoanRow>, rows: seq<LoanInput>)
    ensures LoadLoans(loans, rows).1.None? <==> Fresh(loans, rows)
  {
    LoadLoansStopsAtFirstClash(loans, rows);
  }

  /** The loan loop adds exactly the identifiers of the rows before the refused one, and
      the loans stored before stay as they were. */
  lemma {:induction false} LoadLoansTable(loans: map<string, LoanRow>, rows: seq<LoanInput>)
    ensures var m, n := LoadLoans(loans, rows).0, Loaded(loans, rows);
            && m.Keys == loans.Keys + Ids(rows[..n])
            && (forall k :: k in loans ==> m[k] == loans[k])
    decreases |rows|
  {
    if rows == [] {
      assert rows[..0] == [];
    } else {
      var n := |rows| - 1;
      var init := rows[..n];
      LoadLoansTable(loans, init);
      var (m, failed) := LoadLoans(loans, init);
      var k := Loaded(loans, init);
      if failed.Some? {
        assert LoadLoans(loans, rows) == (m, failed);
        assert init[..k] == rows[..k];
      } else if rows[n].identifier in m {
        assert LoadLoans(loans, rows) == (m, Some(n));
        assert init[..k] == rows[..n];
      } else {
        assert init[..n] == init;
        assert rows[..|rows|] == init + [rows[n]];
        IdsAppend(init, rows[n]);
      }
    }
  }

  /** Each row before the refused one is created with its input columns and the defaults,
      under its own identifier. */
  lemma {:induction false} LoadLoansCreates(loans: map<string, LoanRow>, rows: seq<LoanInput>)
    ensures var m := LoadLoans(loans, rows).0;
            forall i :: 0 <= i < Loaded(loans, rows) ==>
              rows[i].identifier in m && m[rows[i].identifier] == NewLoan(rows[i])
    decreases |rows|
  {
    if rows != [] {
      var n := |rows| - 1;
      var init := rows[..n];
      LoadLoansCreates(loans, init);
      var (m, failed) := LoadLoans(loans, init);
      var k := Loaded(loans, init);
      forall i | 0 <= i < k ensures init[i] == rows[i] { }
      if failed.Some? {
        assert LoadLoans(loans, rows) == (m, failed);
      } else if rows[n].identifier in m {
        assert LoadLoans(loans, rows) == (m, Some(n));
      } else {
        assert LoadLoans(loans, rows) == (m[rows[n].identifier := NewLoan(rows[n])], None);
        LoadLoansTable(loans, init);
        assert init[..n] == init;
        forall i | 0 <= i < |rows|
          ensures m[rows[n].identifier := NewLoan(rows[n])][rows[i].identifier] == NewLoan(rows[i])
        {
          if i < n {
            assert rows[i].identifier in Ids(init);
          }
        }
      }
    }
  }

  /** Once a row has been refused, the rows after it are never read. */
  lemma {:induction false} LoadLoansSticks(loans: map<string, LoanRow>, rows: seq<LoanInput>, k: int)
    requires 0 <= k <= |rows|
    requires LoadLoans(loans, rows[..k]).1.Some?
    ensures LoadLoans(loans, rows) == LoadLoans(loans, rows[..k])
    decreases |rows|
  {
    if k < |rows| {
      var n := |rows| - 1;
      assert rows[..n][..k] == rows[..k];
      LoadLoansSticks(loans, rows[..n], k);
    } else {
      assert rows[..k] == rows;
    }
  }

  // ---------------------------------------------------------------- cash flows

  /** The CashFlow table after the cash-flow loop, and the index of the row whose loan
      was not found, if any. */
  function AppendFlows(loans: map<string, LoanRow>, flows: seq<CashFlow>, rows: seq<FlowInput>): (r: (seq<CashFlow>, Option<nat>))
    ensures r.1.Some? ==> r.1.value < |rows|
    decreases |rows|
  {
    if rows == [] then (flows, None)
    else
      var n := |rows| - 1;
      var (fs, failed) := AppendFlows(loans, flows, rows[..n]);
      if failed.Some? then (fs, failed)
      else if rows[n].loanIdentifier !in loans then (fs, Some(n))
      else (fs + [NewFlow(rows[n])], None)
  }

  /** The cash-flow loop stops at the first row naming an unknown loan; the rows before
      it are appended in file order after the flows already stored. */
  lemma {:induction false} AppendFlowsSpec(loans: map<string, LoanRow>, flows: seq<CashFlow>, rows: seq<FlowInput>)
    ensures var (fs, failed) := AppendFlows(loans, flows, rows);
            var n := if failed.Some? then failed.value else |rows|;
            && (failed.None? <==> forall j :: 0 <= j < |rows| ==> rows[j].loanIdentifier in loans)
            && (failed.Some? ==> rows[failed.value].loanIdentifier !in loans)
            && (forall j :: 0 <= j < n ==> rows[j].loanIdentifier in loans)
            && |fs| == |flows| + n
            && fs[..|flows|] == flows
            && (forall j :: 0 <= j < n ==> fs[|flows| + j] == NewFlow(rows[j]))
    decreases |rows|
  {
    if rows != [] {
      var n := |rows| - 1;
      var init := rows[..n];
      AppendFlowsSpec(loans, flows, init);
      var (fs, failed) := AppendFlows(loans, flows, init);
      forall j | 0 <= j < n ensures init[j] == rows[j] { }
      if failed.None? && rows[n].loanIdentifier in loans {
        var gs := fs + [NewFlow(rows[n])];
        assert gs[..|flows|] == fs[..|flows|];
        forall j | 0 <= j < |rows| ensures gs[|flows| + j] == NewFlow(rows[j]) {
          if j < n { assert gs[|flows| + j] == fs[|flows| + j]; }
        }
      }
    }
  }

  /** Once a row has failed, the rows after it are never read. */
  lemma {:induction false} AppendFlowsSticks(loans: map<string, LoanRow>, flows: seq<CashFlow>, rows: seq<FlowInput>, k: int)
    requires 0 <= k <= |rows|
    requires AppendFlows(loans, flows, rows[..k]).1.Some?
    ensures AppendFlows(loans, flows, rows) == AppendFlows(loans, flows, rows[..k])
    decreases |rows|
  {
    if k < |rows| {
      var n := |rows| - 1;
      assert rows[..n][..k] == rows[..k];
      AppendFlowsSticks(loans, flows, rows[..n], k);
    } else {
      assert rows[..k] == rows;
    }
  }

  // ---------------------------------------------------------------- the task

  /** `process_csv` on the tables `t`: the tables afterwards and the exception that
      propagates, if any. A refused loan row stops the task before any cash flow is read. */
  function Ingest(t: Tables, loanRows: seq<LoanInput>, flowRows: seq<FlowInput>): (r: (Tables, Option<Error>))
    ensures r.1.Some? ==> r.1 == Some(DuplicateIdentifier) || r.1 == Some(LoanNotFound)
    ensures r.1 == Some(DuplicateIdentifier) ==> r.0.flows == t.flows
  {
    var (loans, loanFailure) := LoadLoans(t.loans, loanRows);
    if loanFailure.Some? then (Tables(loans, t.flows), Some(DuplicateIdentifier))
    else
      var (flows, flowFailure) := AppendFlows(loans, t.flows, flowRows);
      (Tables(loans, flows), if flowFailure.Some? then Some(LoanNotFound) else None)
  }

  /** The task completes exactly when no loan row is refused and every cash-flow row names
      a loan that was stored before or created by the loan file. */
  lemma IngestSucceedsIff(t: Tables, loanRows: seq<LoanInput>, flowRows: seq<FlowInput>)
    ensures Ingest(t, loanRows, flowRows).1.None?
        <==> && Fresh(t.loans, loanRows)
             && forall j :: 0 <= j < |flowRows| ==> flowRows[j].loanIdentifier in t.loans.Keys + Ids(loanRows)
  {
    LoadLoansSucceedsIff(t.loans, loanRows);
    LoadLoansTable(t.loans, loanRows);
    var (loans, loanFailure) := LoadLoans(t.loans, loanRows);
    if loanFailure.None? {
      assert loanRows[..|loanRows|] == loanRows;
      AppendFlowsSpec(loans, t.flows, flowRows);
    }
  }

  /** Every loan the loop did not find stored was created from a row carrying its identifier. */
  lemma LoadLoansOrigin(loans: map<string, LoanRow>, rows: seq<LoanInput>)
    ensures var m := LoadLoans(loans, rows).0;
            forall id :: id in m && id !in loans ==>
              exists i :: 0 <= i < |rows| && rows[i].identifier == id && m[id] == NewLoan(rows[i])
  {
    LoadLoansTable(loans, rows);
    LoadLoansCreates(loans, rows);
    var m, n := LoadLoans(loans, rows).0, Loaded(loans, rows);
    forall id | id in m && id !in loans
      ensures exists i :: 0 <= i < |rows| && rows[i].identifier == id && m[id] == NewLoan(rows[i])
    {
      var i :| 0 <= i < n && rows[..n][i].identifier == id;
      assert rows[i].identifier == id;
    }
  }

  /** Every cash flow after the loop was stored before or created from a row whose loan exists. */
  lemma AppendFlowsOrigin(loans: map<string, LoanRow>, flows: seq<CashFlow>, rows: seq<FlowInput>)
    ensures forall c :: c in AppendFlows(loans, flows, rows).0 ==>
              c in flows || exists j :: 0 <= j < |rows| && rows[j].loanIdentifier in loans && c == NewFlow(rows[j])
  {
    AppendFlowsSpec(loans, flows, rows);
    var fs := AppendFlows(loans, flows, rows).0;
    forall c | c in fs
      ensures c in flows || exists j :: 0 <= j < |rows| && rows[j].loanIdentifier in loans && c == NewFlow(rows[j])
    {
      var k :| 0 <= k < |fs| && fs[k] == c;
      if k < |flows| {
        assert fs[..|flows|][k] == c;
      } else {
        assert fs[|flows| + (k - |flows|)] == c;
      }
    }
  }

  /** The task keeps the unique identifiers and the foreign key, whether it completes or not. */
  lemma IngestKeepsConsistent(t: Tables, loanRows: seq<LoanInput>, flowRows: seq<FlowInput>)
    requires Consistent(t)
    ensures Consistent(Ingest(t, loanRows, flowRows).0)
  {
    LoadLoansTable(t.loans, loanRows);
    LoadLoansOrigin(t.loans, loanRows);
    var (loans, loanFailure) := LoadLoans(t.loans, loanRows);
    AppendFlowsOrigin(loans, t.flows, flowRows);
  }

  /** Rows whose rating and type are among the declared choices keep the choices respected. */
  lemma IngestKeepsChoices(t: Tables, loanRows: seq<LoanInput>, flowRows: seq<FlowInput>)
    requires ChoicesRespected(t)
    requires forall i :: 0 <= i < |loanRows| ==> ValidRating(loanRows[i].rating)
    requires forall j :: 0 <= j < |flowRows| ==> ValidKind(flowRows[j].kind)
    ensures ChoicesRespected(Ingest(t, loanRows, flowRows).0)
  {
    LoadLoansTable(t.loans, loanRows);
    LoadLoansOrigin(t.loans, loanRows);
    var (loans, loanFailure) := LoadLoans(t.loans, loanRows);
    AppendFlowsOrigin(loans, t.flows, flowRows);
  }

  /** The declared choices are not checked on the way in: a rating of 42 and a cash flow of
      type "Refund" are stored as given. */
  lemma ChoicesNotEnforced()
    ensures var loan := LoanInput("loan1", 0, 1000.0, 42, 365, 100.0);
            var flow := FlowInput("loan1", 1, "Refund", -1000.0);
            var r := Ingest(Tables(map[], []), [loan], [flow]);
            && r == (Tables(map["loan1" := NewLoan(loan)], [NewFlow(flow)]), None)
            && !ChoicesRespected(r.0)
  {
    var loan := LoanInput("loan1", 0, 1000.0, 42, 365, 100.0);
    var flow := FlowInput("loan1", 1, "Refund", -1000.0);
    assert [loan][..0] == [];
    assert LoadLoans(map[], [loan]) == (map["loan1" := NewLoan(loan)], None);
    assert [flow][..0] == [];
    assert AppendFlows(map["loan1" := NewLoan(loan)], [], [flow]) == ([] + [NewFlow(flow)], None);
    assert [] + [NewFlow(flow)] == [NewFlow(flow)];
    assert !ValidRating(NewLoan(loan).rating);
  }

  /** `process_csv`: the loan loop, then the cash-flow loop, each stopping at the first
      row that raises. */
  method ProcessCsv(db: Database, loanRows: seq<LoanInput>, flowRows: seq<FlowInput>) returns (raised: Option<Error>)
    modifies db
    ensures (db.Snapshot(), raised) == Ingest(old(db.Snapshot()), loanRows, flowRows)
  {
    ghost var start := db.Snapshot();
    for i := 0 to |loanRows|
      invariant LoadLoans(start.loans, loanRows[..i]) == (db.loans, None)
      invariant db.flows == start.flows
    {
      assert loanRows[..i + 1][..i] == loanRows[..i];
      raised := db.CreateLoan(loanRows[i]);
      if raised.Some? {
        LoadLoansSticks(start.loans, loanRows, i + 1);
        return;
      }
    }
    assert loanRows[..|loanRows|] == loanRows;
    ghost var loaded := db.loans;
    for j := 0 to |flowRows|
      invariant AppendFlows(loaded, start.flows, flowRows[..j]) == (db.flows, None)
      invariant db.loans == loaded
    {
      assert flowRows[..j + 1][..j] == flowRows[..j];
      if flowRows[j].loanIdentifier !in db.loans {
        AppendFlowsSticks(loaded, start.flows, flowRows, j + 1);
        return Some(LoanNotFound);
      }
      db.CreateFlow(NewFlow(flowRows[j]));
    }
    assert flowRows[..|flowRows|] == flowRows;
    return None;
  }
}
