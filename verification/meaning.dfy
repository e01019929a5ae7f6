/** What each block of `Subject To` says about a valuation of the variables:
    a block is satisfied exactly when the condition of the capacitated
    p-center formulation it encodes holds. The conditions below are written
    as plain sums over the instance, independently of how the generators
    lay out their terms.
 */
module Meaning {
  import opened Lp
  import opened Blocks

  // ---------------------------------------------------------------------
  // The conditions of the formulation
  // ---------------------------------------------------------------------

  /** How many of the sites 1..sites client `a` is assigned to. */
  function ClientLoad(val: Valuation, sites: nat, a: nat): int {
    SumSeq(seq(sites, s requires 0 <= s < sites => val(X(a, s + 1))))
  }

  /** How many of the sites 1..sites are opened. */
  function OpenSites(val: Valuation, sites: nat): int {
    SumSeq(seq(sites, s requires 0 <= s < sites => val(Y(s + 1))))
  }

  /** The demand of clients 1..clients routed to site `s`. */
  function SiteDemand(val: Valuation, clients: nat, demand: seq<int>, s: nat): int
    requires clients <= |demand|
  {
    SumSeq(seq(clients, i requires 0 <= i < clients => demand[i] * val(X(i + 1, s))))
  }

  /** The cost of client `a`'s assignment over sites 1..sites, each site s
      weighted by the matrix entry in row s-1 and column a-1. */
  function ClientCost(val: Valuation, sites: nat, cost: seq<seq<int>>, a: nat): int
    requires 1 <= a && sites <= |cost| && forall i :: 0 <= i < sites ==> a <= |cost[i]|
  {
    SumSeq(seq(sites, s requires 0 <= s < sites => cost[s][a - 1] * val(X(a, s + 1))))
  }

  predicate EachClientAssignedOnce(val: Valuation, rows: nat, cols: nat) {
    forall a :: 1 <= a <= cols ==> ClientLoad(val, rows, a) == 1
  }

  predicate AtMostPSites(val: Valuation, rows: nat) {
    OpenSites(val, rows) <= P
  }

  predicate AssignedOnlyToOpen(val: Valuation, rows: nat, cols: nat) {
    forall a, s :: 1 <= a <= cols && 1 <= s <= rows ==> val(X(a, s)) <= val(Y(s))
  }

  predicate WithinCapacity(val: Valuation, rows: nat, demand: seq<int>, capacity: seq<int>)
    requires rows <= |demand|
  {
    forall s :: 1 <= s <= |capacity| ==> SiteDemand(val, rows, demand, s) <= capacity[s - 1] * val(Y(s))
  }

  predicate CostsBoundedByW(val: Valuation, rows: nat, cols: nat, cost: seq<seq<int>>)
    requires rows <= |cost| && forall i :: 0 <= i < rows ==> cols <= |cost[i]|
  {
    forall a :: 1 <= a <= cols ==> ClientCost(val, rows, cost, a) <= val(W)
  }

  // ---------------------------------------------------------------------
  // Each block encodes its condition
  // ---------------------------------------------------------------------

  lemma AssignmentRowValue(rows: nat, a: nat, val: Valuation)
    ensures LinSum(seq(rows, b requires 0 <= b < rows => Term(1, X(a, b + 1))), val) == ClientLoad(val, rows, a)
  {
    var ts := seq(rows, b requires 0 <= b < rows => Term(1, X(a, b + 1)));
    LinSumIsSum(ts, val);
    assert seq(|ts|, k requires 0 <= k < |ts| => ts[k].coef * val(ts[k].v))
        == seq(rows, s requires 0 <= s < rows => val(X(a, s + 1)));
  }

  /** The assignment rows hold exactly when every client is assigned to
      exactly one site (for 0/1 values). */
  lemma AssignmentMeaning(rows: nat, cols: nat, counter: nat, val: Valuation)
    ensures AllHold(Assignment(rows, cols, counter).block, val) <==> EachClientAssignedOnce(val, rows, cols)
  {
    var cs := Assignment(rows, cols, counter).block;
    forall k | 0 <= k < cols
      ensures Holds(cs[k], val) <==> ClientLoad(val, rows, k + 1) == 1
    {
      AssignmentRowValue(rows, k + 1, val);
    }
    if AllHold(cs, val) {
      forall a | 1 <= a <= cols
        ensures ClientLoad(val, rows, a) == 1
      {
        assert Holds(cs[a - 1], val);
      }
    }
  }

  /** The facility-count row holds exactly when at most P sites are open. */
  lemma FacilityCountMeaning(rows: nat, counter: nat, val: Valuation)
    ensures AllHold(FacilityCount(rows, counter).block, val) <==> AtMostPSites(val, rows)
  {
    var ts := seq(rows, s requires 0 <= s < rows => Term(1, Y(s + 1)));
    assert FacilityCount(rows, counter).block[0].terms == ts;
    LinSumIsSum(ts, val);
    assert seq(|ts|, k requires 0 <= k < |ts| => ts[k].coef * val(ts[k].v))
        == seq(rows, s requires 0 <= s < rows => val(Y(s + 1)));
  }

  lemma LinkValue(a: nat, s: nat, val: Valuation)
    ensures LinSum([Term(-1, X(a, s)), Term(1, Y(s))], val) == val(Y(s)) - val(X(a, s))
  {
    var ts := [Term(-1, X(a, s)), Term(1, Y(s))];
    assert ts[1..] == [Term(1, Y(s))];
    assert ts[1..][1..] == [];
    assert LinSum(ts[1..], val) == val(Y(s));
  }

  /** When every opening row holds, no client is assigned to a site beyond
      that site's opening value. */
  lemma OpeningSound(rows: nat, cols: nat, counter: nat, val: Valuation)
    ensures AllHold(Opening(rows, cols, counter).block, val) ==> AssignedOnlyToOpen(val, rows, cols)
  {
    var cs := Opening(rows, cols, counter).block;
    if AllHold(cs, val) {
      forall a, s | 1 <= a <= cols && 1 <= s <= rows
        ensures val(X(a, s)) <= val(Y(s))
      {
        OpeningAt(rows, cols, counter, s - 1, a - 1);
        LinkValue(a, s, val);
        assert Holds(cs[RowMajor(s - 1, a - 1, rows, cols)], val);
      }
    }
  }

  /** Conversely, assigning clients only up to each site's opening value
      satisfies every opening row. */
  lemma OpeningComplete(rows: nat, cols: nat, counter: nat, val: Valuation)
    ensures AssignedOnlyToOpen(val, rows, cols) ==> AllHold(Opening(rows, cols, counter).block, val)
  {
    var cs := Opening(rows, cols, counter).block;
    if AssignedOnlyToOpen(val, rows, cols) {
      forall k | 0 <= k < |cs|
        ensures Holds(cs[k], val)
      {
        var x := cs[k].terms[0].v;
        assert cs[k].terms == [Term(-1, X(x.client, x.site)), Term(1, Y(x.site))];
        LinkValue(x.client, x.site, val);
      }
    }
  }

  lemma CapacityRowValue(rows: nat, demand: seq<int>, q: int, s: nat, val: Valuation)
    requires rows <= |demand|
    ensures LinSum([Term(-q, Y(s))] + seq(rows, i requires 0 <= i < rows => Term(demand[i], X(i + 1, s))), val)
         == SiteDemand(val, rows, demand, s) - q * val(Y(s))
  {
    var ts := seq(rows, i requires 0 <= i < rows => Term(demand[i], X(i + 1, s)));
    assert ([Term(-q, Y(s))] + ts)[1..] == ts;
    LinSumIsSum(ts, val);
    assert seq(|ts|, k requires 0 <= k < |ts| => ts[k].coef * val(ts[k].v))
        == seq(rows, i requires 0 <= i < rows => demand[i] * val(X(i + 1, s)));
  }

  /** The capacity rows hold exactly when the demand routed to every site
      of the capacity vector stays within that site's capacity times its
      opening value. */
  lemma CapacityMeaning(rows: nat, demand: seq<int>, capacity: seq<int>, counter: nat, val: Valuation)
    requires rows <= |demand|
    ensures AllHold(Capacity(rows, demand, capacity, counter).block, val)
        <==> WithinCapacity(val, rows, demand, capacity)
  {
    var cs := Capacity(rows, demand, capacity, counter).block;
    forall k | 0 <= k < |capacity|
      ensures Holds(cs[k], val) <==> SiteDemand(val, rows, demand, k + 1) <= capacity[k] * val(Y(k + 1))
    {
      CapacityRowValue(rows, demand, capacity[k], k + 1, val);
    }
    if AllHold(cs, val) {
      forall s | 1 <= s <= |capacity|
        ensures SiteDemand(val, rows, demand, s) <= capacity[s - 1] * val(Y(s))
      {
        assert Holds(cs[s - 1], val);
      }
    }
  }

  lemma MaxCostRowValue(rows: nat, cost: seq<seq<int>>, a: nat, val: Valuation)
    requires 1 <= a && rows <= |cost| && forall i :: 0 <= i < rows ==> a <= |cost[i]|
    ensures LinSum(seq(rows, s requires 0 <= s < rows => Term(cost[s][a - 1], X(a, s + 1))) + [Term(-1, W)], val)
         == ClientCost(val, rows, cost, a) - val(W)
  {
    var ts := seq(rows, s requires 0 <= s < rows => Term(cost[s][a - 1], X(a, s + 1)));
    LinSumAppend(ts, [Term(-1, W)], val);
    LinSumIsSum(ts, val);
    assert seq(|ts|, k requires 0 <= k < |ts| => ts[k].coef * val(ts[k].v))
        == seq(rows, s requires 0 <= s < rows => cost[s][a - 1] * val(X(a, s + 1)));
  }

  /** The max-cost rows hold exactly when W is at least the cost of every
      client's assignment. */
  lemma MaxCostMeaning(rows: nat, cols: nat, cost: seq<seq<int>>, counter: nat, val: Valuation)
    requires rows <= |cost| && forall i :: 0 <= i < rows ==> cols <= |cost[i]|
    ensures AllHold(MaxCost(rows, cols, cost, counter).block, val) <==> CostsBoundedByW(val, rows, cols, cost)
  {
    var cs := MaxCost(rows, cols, cost, counter).block;
    forall k | 0 <= k < cols
      ensures Holds(cs[k], val) <==> ClientCost(val, rows, cost, k + 1) <= val(W)
    {
      MaxCostRowValue(rows, cost, k + 1, val);
      assert cs[k].terms == seq(rows, s requires 0 <= s < rows => Term(cost[s][k], X(k + 1, s + 1))) + [Term(-1, W)];
    }
    if AllHold(cs, val) {
      forall a | 1 <= a <= cols
        ensures ClientCost(val, rows, cost, a) <= val(W)
      {
        assert Holds(cs[a - 1], val);
      }
    }
  }
}
