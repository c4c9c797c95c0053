/** The three cash-flow queries the services issue against the CashFlow table:
    the filter by loan and type, its `.last()` element, and the `Sum("amount")` aggregate.
    The table is a sequence in primary-key order, which is the order an unordered
    queryset is read in and the order `.last()` picks its element by. */
module Queries {
  import opened Models

  /** The filter `loan_identifier=id, type=kind`. */
  predicate Matches(c: CashFlow, id: string, kind: string) {
    c.loanIdentifier == Some(id) && c.kind == kind
  }

  /** No row of `flows` matches the filter. */
  predicate NoMatch(flows: seq<CashFlow>, id: string, kind: string) {
    forall i :: 0 <= i < |flows| ==> !Matches(flows[i], id, kind)
  }

  /** Row `i` matches the filter and no later row does. */
  predicate IsLastMatch(flows: seq<CashFlow>, id: string, kind: string, i: int) {
    && 0 <= i < |flows|
    && Matches(flows[i], id, kind)
    && forall j :: i < j < |flows| ==> !Matches(flows[j], id, kind)
  }

  /** The filtered queryset, in primary-key order. */
  function Filter(flows: seq<CashFlow>, id: string, kind: string): (r: seq<CashFlow>)
    ensures |r| <= |flows|
  {
    if flows == [] then []
    else
      var init, c := flows[..|flows| - 1], flows[|flows| - 1];
      assert flows == init + [c];
      Filter(init, id, kind) + (if Matches(c, id, kind) then [c] else [])
  }

  /** Appending a row extends the filtered queryset by that row exactly when it matches. */
  lemma FilterAppend(flows: seq<CashFlow>, c: CashFlow, id: string, kind: string)
    ensures Filter(flows + [c], id, kind)
         == Filter(flows, id, kind) + (if Matches(c, id, kind) then [c] else [])
  {
    assert (flows + [c])[..|flows|] == flows;
  }

  /** The filtered queryset holds exactly the rows of the table that match the filter. */
  lemma {:induction false} FilterMembers(flows: seq<CashFlow>, id: string, kind: string)
    ensures forall c :: c in Filter(flows, id, kind) <==> c in flows && Matches(c, id, kind)
    decreases |flows|
  {
    if flows != [] {
      var init, last := flows[..|flows| - 1], flows[|flows| - 1];
      assert flows == init + [last];
      FilterMembers(init, id, kind);
    }
  }

  /** `.last()` on the filtered queryset: the matching row with the highest primary key. */
  function Last(flows: seq<CashFlow>, id: string, kind: string): (r: Option<CashFlow>)
    ensures r.None? <==> NoMatch(flows, id, kind)
    ensures forall i :: IsLastMatch(flows, id, kind, i) ==> r == Some(flows[i])
  {
    FilterEmpty(flows, id, kind);
    var f := Filter(flows, id, kind);
    assert forall i :: IsLastMatch(flows, id, kind, i) ==> f != [] && f[|f| - 1] == flows[i] by {
      forall i | IsLastMatch(flows, id, kind, i) ensures f != [] && f[|f| - 1] == flows[i] {
        FilterEndsWithLastMatch(flows, id, kind, i);
      }
    }
    if f == [] then None else Some(f[|f| - 1])
  }

  lemma {:induction false} FilterEmpty(flows: seq<CashFlow>, id: string, kind: string)
    ensures Filter(flows, id, kind) == [] <==> NoMatch(flows, id, kind)
    decreases |flows|
  {
    if flows != [] {
      var n := |flows| - 1;
      var init := flows[..n];
      FilterEmpty(init, id, kind);
      if NoMatch(init, id, kind) && !Matches(flows[n], id, kind) {
        forall i | 0 <= i < |flows| ensures !Matches(flows[i], id, kind) {
          if i < n { assert flows[i] == init[i]; }
        }
      }
    }
  }

  lemma {:induction false} FilterEndsWithLastMatch(flows: seq<CashFlow>, id: string, kind: string, i: int)
    requires IsLastMatch(flows, id, kind, i)
    ensures var f := Filter(flows, id, kind); f != [] && f[|f| - 1] == flows[i]
    decreases |flows|
  {
    var n := |flows| - 1;
    var init := flows[..n];
    if i < n {
      assert !Matches(flows[n], id, kind);
      assert Filter(flows, id, kind) == Filter(init, id, kind) + [];
      assert IsLastMatch(init, id, kind, i) by {
        forall j | i < j < |init| ensures !Matches(init[j], id, kind) {
          assert init[j] == flows[j];
        }
      }
      FilterEndsWithLastMatch(init, id, kind, i);
    }
  }

  /** The last matching row exists exactly when some row matches. */
  lemma {:induction false} LastMatchExists(flows: seq<CashFlow>, id: string, kind: string)
    requires !NoMatch(flows, id, kind)
    ensures exists i :: IsLastMatch(flows, id, kind, i)
    decreases |flows|
  {
    var n := |flows| - 1;
    if Matches(flows[n], id, kind) {
      assert IsLastMatch(flows, id, kind, n);
    } else {
      var init := flows[..n];
      assert !NoMatch(init, id, kind) by {
        var k :| 0 <= k < |flows| && Matches(flows[k], id, kind);
        assert k < n && init[k] == flows[k];
      }
      LastMatchExists(init, id, kind);
      var i :| IsLastMatch(init, id, kind, i);
      assert IsLastMatch(flows, id, kind, i);
    }
  }

  /** The plain sum of the amounts of `s`. */
  function SumAmounts(s: seq<CashFlow>): real {
    if s == [] then 0.0 else SumAmounts(s[..|s| - 1]) + s[|s| - 1].amount
  }

  /** `aggregate(total=Sum("amount"))["total"]` over the filtered queryset:
      null for an empty queryset, the sum of the amounts otherwise. */
  function Total(flows: seq<CashFlow>, id: string, kind: string): (r: Option<real>)
    ensures r.None? <==> NoMatch(flows, id, kind)
  {
    FilterEmpty(flows, id, kind);
    var f := Filter(flows, id, kind);
    if f == [] then None else Some(SumAmounts(f))
  }

  /** Appending a matching row adds its amount to the aggregate; appending any other row
      leaves the aggregate unchanged. */
  lemma TotalAppend(flows: seq<CashFlow>, c: CashFlow, id: string, kind: string)
    ensures Matches(c, id, kind) ==>
              var t := Total(flows, id, kind);
              Total(flows + [c], id, kind)
                == Some((if t.Some? then t.value else 0.0) + c.amount)
    ensures !Matches(c, id, kind) ==> Total(flows + [c], id, kind) == Total(flows, id, kind)
  {
    FilterAppend(flows, c, id, kind);
    var f := Filter(flows, id, kind);
    var g := Filter(flows + [c], id, kind);
    if Matches(c, id, kind) {
      assert g == f + [c];
      assert g[..|g| - 1] == f;
      assert SumAmounts(g) == SumAmounts(f) + c.amount;
    } else {
      assert g == f;
    }
  }

  /** The filter applied to a row followed by more rows. */
  lemma {:induction false} FilterCons(c: CashFlow, flows: seq<CashFlow>, id: string, kind: string)
    ensures Filter([c] + flows, id, kind)
         == (if Matches(c, id, kind) then [c] else []) + Filter(flows, id, kind)
    decreases |flows|
  {
    if flows == [] {
      assert [c] == [] + [c];
      FilterAppend([], c, id, kind);
    } else {
      var n := |flows| - 1;
      var init, last := flows[..n], flows[n];
      assert flows == init + [last];
      assert [c] + flows == ([c] + init) + [last];
      FilterCons(c, init, id, kind);
      FilterAppend([c] + init, last, id, kind);
      FilterAppend(init, last, id, kind);
    }
  }

  /** Deleting loan `id` leaves every query about another loan as it was: the same rows
      in the same order, so the same `.last()` and the same aggregate. */
  lemma {:induction false} CascadeKeepsOtherQueries(t: Tables, id: string, other: string, kind: string)
    requires other != id
    ensures Filter(CascadeDelete(t, id).flows, other, kind) == Filter(t.flows, other, kind)
    ensures Last(CascadeDelete(t, id).flows, other, kind) == Last(t.flows, other, kind)
    ensures Total(CascadeDelete(t, id).flows, other, kind) == Total(t.flows, other, kind)
  {
    FlowsNotOfKeepsFilter(t.flows, id, other, kind);
  }

  lemma {:induction false} FlowsNotOfKeepsFilter(flows: seq<CashFlow>, id: string, other: string, kind: string)
    requires other != id
    ensures Filter(FlowsNotOf(flows, id), other, kind) == Filter(flows, other, kind)
    decreases |flows|
  {
    if flows != [] {
      assert flows == [flows[0]] + flows[1..];
      FlowsNotOfKeepsFilter(flows[1..], id, other, kind);
      FilterCons(flows[0], flows[1..], id, kind);
      FilterCons(flows[0], flows[1..], other, kind);
      if flows[0].loanIdentifier != Some(id) {
        FilterCons(flows[0], FlowsNotOf(flows[1..], id), other, kind);
      }
    }
  }
}
