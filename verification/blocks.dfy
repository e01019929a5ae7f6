/** The five generators of the `Subject To` section. Each one takes the value
    of the shared label counter before its first constraint and returns its
    block together with the counter after its last one, so that the caller
    can thread a single counter through all of them.

    Indices follow the emitted names and are 1-based. The instance is given
    as `rows` (the rows of Cij), `cols` (the columns of Cij), the cost
    matrix, the demand vector Ai and the capacity vector Qi. The assignment,
    opening and max-cost blocks treat `cols` as the clients and `rows` as the
    sites. The capacity block treats `rows` as the clients and `|Qi|` as the
    sites. The two readings agree only when rows = cols = |Qi|.
 */
module Blocks {
  import opened Lp

  /** The number of facilities to site, the right-hand side of the
      facility-count row; the source writes it as the literal 1. */
  const P: int := 1

  /** All `x<a>_<b>` with 1 <= a <= clients and 1 <= b <= sites. */
  function XGrid(clients: nat, sites: nat): set<Var> {
    set a: nat, b: nat | 1 <= a <= clients && 1 <= b <= sites :: X(a, b)
  }

  /** All `y<s>` with 1 <= s <= sites. */
  function YRange(sites: nat): set<Var> {
    set s: nat | 1 <= s <= sites :: Y(s)
  }

  // ---------------------------------------------------------------------
  // Assignment block: every client is served by exactly one facility
  // ---------------------------------------------------------------------

  /** For each client a = 1..cols, the row `x<a>_1 + ... + x<a>_<rows> = 1`. */
  function Assignment(rows: nat, cols: nat, counter: nat): (e: Emitted)
    ensures Advances(e, counter) && |e.block| == cols
    ensures forall k :: 0 <= k < cols ==>
      && e.block[k].rel == Eq && e.block[k].rhs == 1
      && e.block[k].terms == seq(rows, b requires 0 <= b < rows => Term(1, X(k + 1, b + 1)))
    decreases cols
  {
    if cols == 0 then Emitted([], counter)
    else
      var e := Assignment(rows, cols - 1, counter);
      var row := Constraint(e.counter + 1, seq(rows, b requires 0 <= b < rows => Term(1, X(cols, b + 1))), Eq, 1);
      Emitted(e.block + [row], e.counter + 1)
  }

  lemma AssignmentUses(rows: nat, cols: nat, counter: nat)
    ensures Used(Assignment(rows, cols, counter).block) == XGrid(cols, rows)
  {
    var cs := Assignment(rows, cols, counter).block;
    forall v | v in Used(cs)
      ensures v in XGrid(cols, rows)
    {
      var k, j :| 0 <= k < |cs| && 0 <= j < |cs[k].terms| && cs[k].terms[j].v == v;
      assert v == X(k + 1, j + 1);
    }
    forall v | v in XGrid(cols, rows)
      ensures v in Used(cs)
    {
      var a: nat, b: nat :| 1 <= a <= cols && 1 <= b <= rows && v == X(a, b);
      assert cs[a - 1].terms[b - 1].v == v;
    }
  }

  // ---------------------------------------------------------------------
  // Facility-count block: at most P facilities are sited
  // ---------------------------------------------------------------------

  /** The single row `y1 + ... + y<rows> <= P`. */
  function FacilityCount(rows: nat, counter: nat): (e: Emitted)
    ensures Advances(e, counter) && |e.block| == 1
    ensures e.block[0].rel == Le && e.block[0].rhs == P
    ensures e.block[0].terms == seq(rows, s requires 0 <= s < rows => Term(1, Y(s + 1)))
  {
    Emitted([Constraint(counter + 1, seq(rows, s requires 0 <= s < rows => Term(1, Y(s + 1))), Le, P)], counter + 1)
  }

  lemma FacilityCountUses(rows: nat, counter: nat)
    ensures Used(FacilityCount(rows, counter).block) == YRange(rows)
  {
    var cs := FacilityCount(rows, counter).block;
    forall v | v in YRange(rows)
      ensures v in Used(cs)
    {
      var s: nat :| 1 <= s <= rows && v == Y(s);
      assert cs[0].terms[s - 1].v == v;
    }
  }

  // ---------------------------------------------------------------------
  // Opening block: a client is assigned only to an opened site
  // ---------------------------------------------------------------------

  /** `c` is `- x<a>_<s> + y<s> >= 0` for a client a <= cols and a site
      s <= rows: the site of the `x` is the index of the `y`. */
  predicate IsLink(c: Constraint, rows: nat, cols: nat) {
    && c.rel == Ge && c.rhs == 0 && |c.terms| == 2
    && c.terms[0].coef == -1 && c.terms[0].v.X?
    && 1 <= c.terms[0].v.client <= cols && 1 <= c.terms[0].v.site <= rows
    && c.terms[1] == Term(1, Y(c.terms[0].v.site))
  }

  /** For each site i = 1..rows (outer) and client j = 1..cols (inner), the row
      `- x<j>_<i> + y<i> >= 0`. */
  function Opening(rows: nat, cols: nat, counter: nat): (e: Emitted)
    ensures Advances(e, counter) && |e.block| == rows * cols
    ensures forall k :: 0 <= k < |e.block| ==> IsLink(e.block[k], rows, cols)
    decreases rows
  {
    if rows == 0 then Emitted([], counter)
    else
      var e := Opening(rows - 1, cols, counter);
      var row := seq(cols, j requires 0 <= j < cols =>
        Constraint(e.counter + 1 + j, [Term(-1, X(j + 1, rows)), Term(1, Y(rows))], Ge, 0));
      NumberedAppend(e.block, row, counter);
      Emitted(e.block + row, e.counter + cols)
  }

  /** The rows come in row-major order: site-major, client-minor. */
  lemma {:induction false} OpeningAt(rows: nat, cols: nat, counter: nat, i: nat, j: nat)
    requires i < rows && j < cols
    ensures Opening(rows, cols, counter).block[RowMajor(i, j, rows, cols)].terms
         == [Term(-1, X(j + 1, i + 1)), Term(1, Y(i + 1))]
    decreases rows
  {
    var e := Opening(rows - 1, cols, counter);
    var whole := Opening(rows, cols, counter).block;
    assert |e.block| == (rows - 1) * cols;
    if i < rows - 1 {
      OpeningAt(rows - 1, cols, counter, i, j);
      assert RowMajor(i, j, rows, cols) == RowMajor(i, j, rows - 1, cols);
      assert whole[RowMajor(i, j, rows, cols)] == e.block[RowMajor(i, j, rows - 1, cols)];
    } else {
      assert RowMajor(i, j, rows, cols) == |e.block| + j;
    }
  }

  lemma OpeningUses(rows: nat, cols: nat, counter: nat)
    ensures Used(Opening(rows, cols, counter).block)
         == XGrid(cols, rows) + (if cols > 0 then YRange(rows) else {})
  {
    OpeningUsesWithin(rows, cols, counter);
    OpeningUsesAll(rows, cols, counter);
  }

  lemma OpeningUsesWithin(rows: nat, cols: nat, counter: nat)
    ensures Used(Opening(rows, cols, counter).block)
         <= XGrid(cols, rows) + (if cols > 0 then YRange(rows) else {})
  {
    LinksUseWithin(Opening(rows, cols, counter).block, rows, cols);
  }

  lemma LinksUseWithin(cs: seq<Constraint>, rows: nat, cols: nat)
    requires forall k :: 0 <= k < |cs| ==> IsLink(cs[k], rows, cols)
    ensures Used(cs) <= XGrid(cols, rows) + (if cols > 0 then YRange(rows) else {})
  {
    forall v | v in Used(cs)
      ensures v in XGrid(cols, rows) + (if cols > 0 then YRange(rows) else {})
    {
      var k, t :| 0 <= k < |cs| && 0 <= t < |cs[k].terms| && cs[k].terms[t].v == v;
      assert IsLink(cs[k], rows, cols);
      var x := cs[k].terms[0].v;
      if t == 0 {
        assert v == X(x.client, x.site);
      } else {
        assert v == Y(x.site);
      }
    }
  }

  lemma OpeningUsesAll(rows: nat, cols: nat, counter: nat)
    ensures XGrid(cols, rows) + (if cols > 0 then YRange(rows) else {})
         <= Used(Opening(rows, cols, counter).block)
  {
    var cs := Opening(rows, cols, counter).block;
    forall v | v in XGrid(cols, rows)
      ensures v in Used(cs)
    {
      var a: nat, s: nat :| 1 <= a <= cols && 1 <= s <= rows && v == X(a, s);
      OpeningAt(rows, cols, counter, s - 1, a - 1);
      assert cs[RowMajor(s - 1, a - 1, rows, cols)].terms[0].v == v;
    }
    if cols > 0 {
      forall v | v in YRange(rows)
        ensures v in Used(cs)
      {
        var s: nat :| 1 <= s <= rows && v == Y(s);
        OpeningAt(rows, cols, counter, s - 1, 0);
        assert cs[RowMajor(s - 1, 0, rows, cols)].terms[1].v == v;
      }
    }
  }

  // ---------------------------------------------------------------------
  // Capacity block: demand routed to a site stays within its capacity
  // ---------------------------------------------------------------------

  /** For each site s = 1..|capacity|, the row
      `-Q<s> y<s> + A1 x1_<s> + ... + A<rows> x<rows>_<s> <= 0`. */
  function Capacity(rows: nat, demand: seq<int>, capacity: seq<int>, counter: nat): (e: Emitted)
    requires rows <= |demand|
    ensures Advances(e, counter) && |e.block| == |capacity|
    ensures forall s :: 0 <= s < |capacity| ==>
      && e.block[s].rel == Le && e.block[s].rhs == 0
      && e.block[s].terms == [Term(-capacity[s], Y(s + 1))]
                             + seq(rows, i requires 0 <= i < rows => Term(demand[i], X(i + 1, s + 1)))
    decreases |capacity|
  {
    if |capacity| == 0 then Emitted([], counter)
    else
      var s := |capacity| - 1;
      var e := Capacity(rows, demand, capacity[..s], counter);
      var row := Constraint(e.counter + 1,
        [Term(-capacity[s], Y(s + 1))] + seq(rows, i requires 0 <= i < rows => Term(demand[i], X(i + 1, s + 1))),
        Le, 0);
      Emitted(e.block + [row], e.counter + 1)
  }

  /** Term t of the capacity row of site s+1: the `y` first, then the
      clients' `x` in order, all on that site. */
  lemma CapacityVarAt(rows: nat, demand: seq<int>, capacity: seq<int>, counter: nat, s: nat, t: nat)
    requires rows <= |demand| && s < |capacity| && t <= rows
    ensures |Capacity(rows, demand, capacity, counter).block[s].terms| == rows + 1
    ensures Capacity(rows, demand, capacity, counter).block[s].terms[t].v == if t == 0 then Y(s + 1) else X(t, s + 1)
  {
    var ts := Capacity(rows, demand, capacity, counter).block[s].terms;
    var xs := seq(rows, i requires 0 <= i < rows => Term(demand[i], X(i + 1, s + 1)));
    assert ts == [Term(-capacity[s], Y(s + 1))] + xs;
    if t > 0 {
      assert ts[t] == xs[t - 1];
    }
  }

  lemma CapacityUses(rows: nat, demand: seq<int>, capacity: seq<int>, counter: nat)
    requires rows <= |demand|
    ensures Used(Capacity(rows, demand, capacity, counter).block)
         == YRange(|capacity|) + XGrid(rows, |capacity|)
  {
    var cs := Capacity(rows, demand, capacity, counter).block;
    forall v | v in Used(cs)
      ensures v in YRange(|capacity|) + XGrid(rows, |capacity|)
    {
      var k, t :| 0 <= k < |cs| && 0 <= t < |cs[k].terms| && cs[k].terms[t].v == v;
      CapacityVarAt(rows, demand, capacity, counter, k, t);
    }
    forall v | v in YRange(|capacity|) + XGrid(rows, |capacity|)
      ensures v in Used(cs)
    {
      if v in YRange(|capacity|) {
        var s: nat :| 1 <= s <= |capacity| && v == Y(s);
        CapacityVarAt(rows, demand, capacity, counter, s - 1, 0);
        assert cs[s - 1].terms[0].v == v;
      } else {
        var a: nat, s: nat :| 1 <= a <= rows && 1 <= s <= |capacity| && v == X(a, s);
        CapacityVarAt(rows, demand, capacity, counter, s - 1, a);
        assert cs[s - 1].terms[a].v == v;
      }
    }
  }

  // ---------------------------------------------------------------------
  // Max-cost block: W bounds the cost of every client's assignment
  // ---------------------------------------------------------------------

  /** For each client a = 1..cols, the row
      `Cij[0][a-1] x<a>_1 + ... + Cij[rows-1][a-1] x<a>_<rows> - W <= 0`.
      The coefficient on `x<a>_<s>` is read from row s-1 and column a-1 of the
      matrix, i.e. the matrix is indexed site-first here. */
  function MaxCost(rows: nat, cols: nat, cost: seq<seq<int>>, counter: nat): (e: Emitted)
    requires rows <= |cost| && forall i :: 0 <= i < rows ==> cols <= |cost[i]|
    ensures Advances(e, counter) && |e.block| == cols
    ensures forall a :: 0 <= a < cols ==>
      && e.block[a].rel == Le && e.block[a].rhs == 0
      && e.block[a].terms == seq(rows, s requires 0 <= s < rows => Term(cost[s][a], X(a + 1, s + 1))) + [Term(-1, W)]
    decreases cols
  {
    if cols == 0 then Emitted([], counter)
    else
      var e := MaxCost(rows, cols - 1, cost, counter);
      var a := cols - 1;
      var row := Constraint(e.counter + 1,
        seq(rows, s requires 0 <= s < rows => Term(cost[s][a], X(a + 1, s + 1))) + [Term(-1, W)],
        Le, 0);
      Emitted(e.block + [row], e.counter + 1)
  }

  /** Term t of the max-cost row of client a+1: the `x` of that client at
      every site in order, then W. */
  lemma MaxCostVarAt(rows: nat, cols: nat, cost: seq<seq<int>>, counter: nat, a: nat, t: nat)
    requires rows <= |cost| && forall i :: 0 <= i < rows ==> cols <= |cost[i]|
    requires a < cols && t <= rows
    ensures |MaxCost(rows, cols, cost, counter).block[a].terms| == rows + 1
    ensures MaxCost(rows, cols, cost, counter).block[a].terms[t].v == if t < rows then X(a + 1, t + 1) else W
  {
    var ts := MaxCost(rows, cols, cost, counter).block[a].terms;
    var xs := seq(rows, s requires 0 <= s < rows => Term(cost[s][a], X(a + 1, s + 1)));
    assert ts == xs + [Term(-1, W)];
    if t < rows {
      assert ts[t] == xs[t];
    }
  }

  lemma MaxCostUses(rows: nat, cols: nat, cost: seq<seq<int>>, counter: nat)
    requires rows <= |cost| && forall i :: 0 <= i < rows ==> cols <= |cost[i]|
    ensures Used(MaxCost(rows, cols, cost, counter).block)
         == XGrid(cols, rows) + (if cols > 0 then {W} else {})
  {
    var cs := MaxCost(rows, cols, cost, counter).block;
    var expected := XGrid(cols, rows) + (if cols > 0 then {W} else {});
    forall v | v in Used(cs)
      ensures v in expected
    {
      var k, t :| 0 <= k < |cs| && 0 <= t < |cs[k].terms| && cs[k].terms[t].v == v;
      MaxCostVarAt(rows, cols, cost, counter, k, t);
    }
    forall v | v in expected
      ensures v in Used(cs)
    {
      if v == W {
        MaxCostVarAt(rows, cols, cost, counter, 0, rows);
        assert cs[0].terms[rows].v == v;
      } else {
        var a: nat, s: nat :| 1 <= a <= cols && 1 <= s <= rows && v == X(a, s);
        MaxCostVarAt(rows, cols, cost, counter, a - 1, s - 1);
        assert cs[a - 1].terms[s - 1].v == v;
      }
    }
  }

  /** The max-cost coefficient on `x<a>_<s>` is the cost of client a at
      site s exactly when the matrix is symmetric at that entry. */
  lemma MaxCostCoefficient(rows: nat, cols: nat, cost: seq<seq<int>>, counter: nat, a: nat, s: nat)
    requires rows == |cost| && forall i :: 0 <= i < rows ==> |cost[i]| == cols
    requires 1 <= a <= cols && 1 <= s <= rows && a <= rows && s <= cols
    ensures MaxCost(rows, cols, cost, counter).block[a - 1].terms[s - 1] == Term(cost[s - 1][a - 1], X(a, s))
    ensures MaxCost(rows, cols, cost, counter).block[a - 1].terms[s - 1].coef == cost[a - 1][s - 1]
        <==> cost[s - 1][a - 1] == cost[a - 1][s - 1]
  {
  }
}
