/** The assembled document: `Minimize obj: W`, then `Subject To` with the
    assignment, facility-count, opening, capacity and max-cost blocks in
    that order, then `Bounds` (x before y), then `Binaries` (x before y),
    then `End`.

    The source starts each block's label counter from a literal (0, the
    label c5, 5, 21, 25). `AsWritten` keeps those literals; `Emit` threads
    the counter each generator returns into the next one. The two agree
    exactly on the 4-site instance the source ships.
 */
module Assembly {
  import opened Lp
  import opened Blocks
  import opened Declarations
  import opened Meaning

  /** The numeric instance: the cost matrix Cij with its shape (rows, cols),
      the demand vector Ai and the capacity vector Qi. */
  datatype Instance = Instance(rows: nat, cols: nat, cost: seq<seq<int>>, demand: seq<int>, capacity: seq<int>)

  /** What the generators index into: Cij has the shape (rows, cols) and Ai
      has an entry for each of the first `rows` clients. */
  predicate Shaped(inst: Instance) {
    && |inst.cost| == inst.rows
    && (forall i :: 0 <= i < inst.rows ==> |inst.cost[i]| == inst.cols)
    && inst.rows <= |inst.demand|
  }

  /** An instance of the formulation proper: n sites, n clients and one
      capacity per site. */
  predicate Square(inst: Instance, n: nat) {
    Shaped(inst) && inst.rows == n && inst.cols == n && |inst.capacity| == n
  }

  /** The counter value each of the five constraint generators starts from. */
  datatype Starts = Starts(assignment: nat, facility: nat, opening: nat, capacity: nat, maxCost: nat)

  /** The starting counters written into the source: the assignment counter
      starts at 0, the facility-count row is labelled c5, and the opening,
      capacity and max-cost counters start at 5, 21 and 25. */
  const SourceStarts := Starts(0, 4, 5, 21, 25)

  /** The document, with each block's labels starting after `st`: it
      minimises `W`, has one constraint per client for assignment, one
      facility-count row, one opening row per site and client, one capacity
      row per entry of Qi and one max-cost row per client, and one bound and
      one binary declaration per `x` of the rows-by-cols grid and per `y`. */
  function Assemble(inst: Instance, st: Starts): (p: Program)
    requires Shaped(inst)
    ensures p.objective == W
    ensures |p.constraints| == inst.cols + 1 + inst.rows * inst.cols + |inst.capacity| + inst.cols
    ensures |p.bounds| == inst.rows * inst.cols + inst.rows
    ensures |p.binaries| == inst.rows * inst.cols + inst.rows
  {
    var Instance(rows, cols, cost, demand, capacity) := inst;
    Program(
      W,
      Assignment(rows, cols, st.assignment).block
        + FacilityCount(rows, st.facility).block
        + Opening(rows, cols, st.opening).block
        + Capacity(rows, demand, capacity, st.capacity).block
        + MaxCost(rows, cols, cost, st.maxCost).block,
      XBounds(rows, cols) + YBounds(rows),
      XBinaries(rows, cols) + YBinaries(rows))
  }

  /** The document exactly as the source labels it: the assignment rows are
      `c1` to `c<cols>`, and the facility-count row right after them is `c5`
      whatever the number of clients. */
  function AsWritten(inst: Instance): (p: Program)
    requires Shaped(inst)
    ensures |p.constraints| > inst.cols
    ensures forall k :: 0 <= k < inst.cols ==> p.constraints[k].number == k + 1
    ensures p.constraints[inst.cols].number == 5
  {
    AssignmentRowsAt(inst, SourceStarts);
    FacilityRowAt(inst, SourceStarts);
    Assemble(inst, SourceStarts)
  }

  /** The starting counters obtained by feeding each generator's final
      counter to the next generator. Each block starts where the blocks
      before it end. */
  function Threaded(inst: Instance): (st: Starts)
    requires Shaped(inst)
    ensures st == Starts(0, inst.cols, inst.cols + 1, inst.cols + 1 + inst.rows * inst.cols,
                         inst.cols + 1 + inst.rows * inst.cols + |inst.capacity|)
  {
    var Instance(rows, cols, cost, demand, capacity) := inst;
    var a := Assignment(rows, cols, 0).counter;
    var f := FacilityCount(rows, a).counter;
    var o := Opening(rows, cols, f).counter;
    var q := Capacity(rows, demand, capacity, o).counter;
    Starts(0, a, f, o, q)
  }

  /** The document with a single label counter threaded through it: its
      constraints are labelled 1, 2, ..., one per row, with no gap and no
      label repeated, and the sections have the sizes the instance fixes. */
  function Emit(inst: Instance): (p: Program)
    requires Shaped(inst)
    ensures p.objective == W
    ensures |p.constraints| == inst.cols + 1 + inst.rows * inst.cols + |inst.capacity| + inst.cols
    ensures |p.bounds| == inst.rows * inst.cols + inst.rows
    ensures |p.binaries| == inst.rows * inst.cols + inst.rows
    ensures Numbered(p.constraints, 0)
    ensures forall k, l :: 0 <= k < l < |p.constraints| ==> p.constraints[k].number != p.constraints[l].number
  {
    var Instance(rows, cols, cost, demand, capacity) := inst;
    var st := Threaded(inst);
    var a := Assignment(rows, cols, st.assignment).block;
    var f := FacilityCount(rows, st.facility).block;
    var o := Opening(rows, cols, st.opening).block;
    var q := Capacity(rows, demand, capacity, st.capacity).block;
    var m := MaxCost(rows, cols, cost, st.maxCost).block;
    NumberedAppend(a, f, 0);
    NumberedAppend(a + f, o, 0);
    NumberedAppend(a + f + o, q, 0);
    NumberedAppend(a + f + o + q, m, 0);
    Assemble(inst, st)
  }

  // ---------------------------------------------------------------------
  // The hard-coded offsets
  // ---------------------------------------------------------------------

  lemma SquareOffsets(n: nat)
    ensures n + 1 + n * n == 21 <==> n == 4
    ensures 2 * n + 1 + n * n == 25 <==> n == 4
  {
    if n <= 3 {
      MulMonotone(n, 3, n);
      MulMonotone(n, 3, 3);
    } else if n >= 5 {
      MulMonotone(5, n, 5);
      MulMonotone(5, n, n);
    }
  }

  /** On an n-site instance the threaded starting counters are n, n+1,
      n+1+n*n and 2n+1+n*n; each equals the literal the source writes exactly
      when n = 4. */
  lemma ThreadedOffsets(inst: Instance, n: nat)
    requires Square(inst, n)
    ensures Threaded(inst) == Starts(0, n, n + 1, n + 1 + n * n, 2 * n + 1 + n * n)
    ensures Threaded(inst).facility == SourceStarts.facility <==> n == 4
    ensures Threaded(inst).opening == SourceStarts.opening <==> n == 4
    ensures Threaded(inst).capacity == SourceStarts.capacity <==> n == 4
    ensures Threaded(inst).maxCost == SourceStarts.maxCost <==> n == 4
    ensures Threaded(inst) == SourceStarts <==> n == 4
  {
    var st := Threaded(inst);
    assert st == Starts(0, n, n + 1, n + 1 + n * n, 2 * n + 1 + n * n);
    SquareOffsets(n);
  }

  /** The document opens with the assignment rows. */
  lemma AssignmentRowsAt(inst: Instance, st: Starts)
    requires Shaped(inst)
    ensures |Assemble(inst, st).constraints| >= inst.cols
    ensures forall k :: 0 <= k < inst.cols ==>
      Assemble(inst, st).constraints[k] == Assignment(inst.rows, inst.cols, st.assignment).block[k]
  {
    var Instance(rows, cols, cost, demand, capacity) := inst;
    var a := Assignment(rows, cols, st.assignment).block;
    var rest := FacilityCount(rows, st.facility).block
      + Opening(rows, cols, st.opening).block
      + Capacity(rows, demand, capacity, st.capacity).block
      + MaxCost(rows, cols, cost, st.maxCost).block;
    assert Assemble(inst, st).constraints == a + rest;
  }

  /** The facility-count row sits right after the assignment rows. */
  lemma FacilityRowAt(inst: Instance, st: Starts)
    requires Shaped(inst)
    ensures |Assemble(inst, st).constraints| > inst.cols
    ensures Assemble(inst, st).constraints[inst.cols] == FacilityCount(inst.rows, st.facility).block[0]
  {
    var Instance(rows, cols, cost, demand, capacity) := inst;
    var a := Assignment(rows, cols, st.assignment).block;
    var f := FacilityCount(rows, st.facility).block;
    var o := Opening(rows, cols, st.opening).block;
    var q := Capacity(rows, demand, capacity, st.capacity).block;
    var m := MaxCost(rows, cols, cost, st.maxCost).block;
    var cs := Assemble(inst, st).constraints;
    assert cs == a + f + o + q + m;
    assert |a + f| == cols + 1;
    assert cs[cols] == (a + f)[cols];
  }

  /** The source's labels are 1, 2, ..., without gap or repetition, exactly
      when the instance has four sites. */
  lemma AsWrittenContiguousIffFour(inst: Instance, n: nat)
    requires Square(inst, n)
    ensures Numbered(AsWritten(inst).constraints, 0) <==> n == 4
    ensures AsWritten(inst) == Emit(inst) <==> n == 4
  {
    ThreadedOffsets(inst, n);
    FacilityRowAt(inst, SourceStarts);
    assert AsWritten(inst).constraints[n].number == 5;
    if n == 4 {
      assert AsWritten(inst) == Emit(inst);
    }
  }

  /** With five or more clients the source labels both the fifth assignment
      row and the facility-count row `c5`. */
  lemma AsWrittenLabelCollision(inst: Instance)
    requires Shaped(inst) && inst.cols >= 5
    ensures AsWritten(inst).constraints[4].number == 5
    ensures AsWritten(inst).constraints[inst.cols].number == 5
  {
    var cs := AsWritten(inst).constraints;
    var a := Assignment(inst.rows, inst.cols, 0).block;
    FacilityRowAt(inst, SourceStarts);
    assert cs[4] == a[4];
  }

  /** With fewer than four clients the script never uses the label that
      should follow the last assignment row. */
  lemma AsWrittenLabelGap(inst: Instance)
    requires Shaped(inst) && inst.cols < 4
    ensures forall k :: 0 <= k < |AsWritten(inst).constraints| ==> AsWritten(inst).constraints[k].number != inst.cols + 1
  {
    var Instance(rows, cols, cost, demand, capacity) := inst;
    var st := SourceStarts;
    var a := Assignment(rows, cols, st.assignment).block;
    var f := FacilityCount(rows, st.facility).block;
    var o := Opening(rows, cols, st.opening).block;
    var q := Capacity(rows, demand, capacity, st.capacity).block;
    var m := MaxCost(rows, cols, cost, st.maxCost).block;
    var cs := AsWritten(inst).constraints;
    assert cs == a + f + o + q + m;
    forall k | 0 <= k < |cs|
      ensures cs[k].number != cols + 1
    {
      if k < |a| {
        assert cs[k] == a[k];
      } else if k < |a + f| {
        assert cs[k] == f[k - |a|];
      } else if k < |a + f + o| {
        assert cs[k] == o[k - |a + f|];
      } else if k < |a + f + o + q| {
        assert cs[k] == q[k - |a + f + o|];
      } else {
        assert cs[k] == m[k - |a + f + o + q|];
      }
    }
  }

  // ---------------------------------------------------------------------
  // Variables: used in constraints versus declared
  // ---------------------------------------------------------------------

  /** The variables a document declares binary. */
  function Declared(p: Program): set<Var> {
    set v | v in p.binaries
  }

  /** The variables the five blocks of an instance mention between them. */
  function BlockVars(inst: Instance): set<Var> {
    // assignment rows, then the facility-count row
    XGrid(inst.cols, inst.rows) + YRange(inst.rows)
      // the opening rows' `y` terms; their `x` terms lie in the assignment grid
      + (if inst.cols > 0 then YRange(inst.rows) else {})
      // capacity rows
      + YRange(|inst.capacity|) + XGrid(inst.rows, |inst.capacity|)
      // max-cost rows; their `x` terms lie in the assignment grid
      + (if inst.cols > 0 then {W} else {})
  }

  /** Subject To mentions no variable outside the five blocks' sets. */
  lemma AssembledUsesWithin(inst: Instance, st: Starts)
    requires Shaped(inst)
    ensures Used(Assemble(inst, st).constraints) <= BlockVars(inst)
  {
    var Instance(rows, cols, cost, demand, capacity) := inst;
    var a := Assignment(rows, cols, st.assignment).block;
    var f := FacilityCount(rows, st.facility).block;
    var o := Opening(rows, cols, st.opening).block;
    var q := Capacity(rows, demand, capacity, st.capacity).block;
    var m := MaxCost(rows, cols, cost, st.maxCost).block;
    UsedAppend(a, f);
    UsedAppend(a + f, o);
    UsedAppend(a + f + o, q);
    UsedAppend(a + f + o + q, m);
    AssignmentUses(rows, cols, st.assignment);
    FacilityCountUses(rows, st.facility);
    OpeningUses(rows, cols, st.opening);
    CapacityUses(rows, demand, capacity, st.capacity);
    MaxCostUses(rows, cols, cost, st.maxCost);
  }

  /** Every variable of the five blocks' sets is mentioned in Subject To. */
  lemma AssembledUsesAll(inst: Instance, st: Starts)
    requires Shaped(inst)
    ensures BlockVars(inst) <= Used(Assemble(inst, st).constraints)
  {
    var Instance(rows, cols, cost, demand, capacity) := inst;
    var a := Assignment(rows, cols, st.assignment).block;
    var f := FacilityCount(rows, st.facility).block;
    var o := Opening(rows, cols, st.opening).block;
    var q := Capacity(rows, demand, capacity, st.capacity).block;
    var m := MaxCost(rows, cols, cost, st.maxCost).block;
    UsedAppend(a, f);
    UsedAppend(a + f, o);
    UsedAppend(a + f + o, q);
    UsedAppend(a + f + o + q, m);
    AssignmentUses(rows, cols, st.assignment);
    FacilityCountUses(rows, st.facility);
    OpeningUses(rows, cols, st.opening);
    CapacityUses(rows, demand, capacity, st.capacity);
    MaxCostUses(rows, cols, cost, st.maxCost);
  }

  lemma DeclaredVars(inst: Instance, st: Starts)
    requires Shaped(inst)
    ensures Declared(Assemble(inst, st)) == XGrid(inst.rows, inst.cols) + YRange(inst.rows)
  {
    BoundsMatchBinaries(inst.rows, inst.cols);
  }

  lemma XGridMono(c1: nat, s1: nat, c2: nat, s2: nat)
    requires c1 <= c2 && s1 <= s2
    ensures XGrid(c1, s1) <= XGrid(c2, s2)
  {
    forall v | v in XGrid(c1, s1)
      ensures v in XGrid(c2, s2)
    {
      var a: nat, b: nat :| 1 <= a <= c1 && 1 <= b <= s1 && v == X(a, b);
    }
  }

  /** On a non-empty instance, every variable that appears in a constraint
      is declared binary, apart from W, exactly when the cost matrix is
      square and there is no more than one capacity per site. In that case
      the constraints use precisely the declared variables and W, and W is
      never declared. */
  lemma DeclaredCoversUsed(inst: Instance, st: Starts)
    requires Shaped(inst) && inst.rows >= 1 && inst.cols >= 1
    ensures Used(Assemble(inst, st).constraints) <= Declared(Assemble(inst, st)) + {W}
        <==> inst.rows == inst.cols && |inst.capacity| <= inst.rows
    ensures inst.rows == inst.cols && |inst.capacity| <= inst.rows
        ==> Used(Assemble(inst, st).constraints) == Declared(Assemble(inst, st)) + {W}
    ensures W !in Declared(Assemble(inst, st))
  {
    var Instance(rows, cols, cost, demand, capacity) := inst;
    var p := Assemble(inst, st);
    AssembledUsesWithin(inst, st);
    AssembledUsesAll(inst, st);
    DeclaredVars(inst, st);
    if rows < cols {
      assert X(cols, 1) in XGrid(cols, rows) && X(cols, 1) !in XGrid(rows, cols);
    } else if cols < rows {
      assert X(1, rows) in XGrid(cols, rows) && X(1, rows) !in XGrid(rows, cols);
    } else if rows < |capacity| {
      assert Y(|capacity|) in YRange(|capacity|) && Y(|capacity|) !in YRange(rows);
    }
    if rows == cols && |capacity| <= rows {
      XGridMono(rows, |capacity|, rows, cols);
      assert YRange(|capacity|) <= YRange(rows);
    }
  }

  // ---------------------------------------------------------------------
  // What the constraints say
  // ---------------------------------------------------------------------

  /** A valuation satisfies every constraint of the document exactly when it
      meets the five conditions of the capacitated p-center formulation.
      Labels play no part, so this holds for the source's labels too. */
  lemma AssembledMeaning(inst: Instance, st: Starts, val: Valuation)
    requires Shaped(inst)
    ensures AllHold(Assemble(inst, st).constraints, val)
        <==> && EachClientAssignedOnce(val, inst.rows, inst.cols)
             && AtMostPSites(val, inst.rows)
             && AssignedOnlyToOpen(val, inst.rows, inst.cols)
             && WithinCapacity(val, inst.rows, inst.demand, inst.capacity)
             && CostsBoundedByW(val, inst.rows, inst.cols, inst.cost)
  {
    var Instance(rows, cols, cost, demand, capacity) := inst;
    var a := Assignment(rows, cols, st.assignment).block;
    var f := FacilityCount(rows, st.facility).block;
    var o := Opening(rows, cols, st.opening).block;
    var q := Capacity(rows, demand, capacity, st.capacity).block;
    var m := MaxCost(rows, cols, cost, st.maxCost).block;
    AllHoldAppend(a, f, val);
    AllHoldAppend(a + f, o, val);
    AllHoldAppend(a + f + o, q, val);
    AllHoldAppend(a + f + o + q, m, val);
    AssignmentMeaning(rows, cols, st.assignment, val);
    FacilityCountMeaning(rows, st.facility, val);
    OpeningSound(rows, cols, st.opening, val);
    OpeningComplete(rows, cols, st.opening, val);
    CapacityMeaning(rows, demand, capacity, st.capacity, val);
    MaxCostMeaning(rows, cols, cost, st.maxCost, val);
  }

  // ---------------------------------------------------------------------
  // The instance the source ships
  // ---------------------------------------------------------------------

  const Bundled := Instance(
    4, 4,
    [[0, 13, 8, 15], [13, 0, 12, 11], [8, 12, 0, 10], [15, 11, 10, 0]],
    [1000, 1200, 1400, 1350],
    [0, 6000, 0, 0])

  predicate Symmetric(cost: seq<seq<int>>, n: nat)
    requires |cost| == n && forall i :: 0 <= i < n ==> |cost[i]| == n
  {
    forall i, j :: 0 <= i < n && 0 <= j < n ==> cost[i][j] == cost[j][i]
  }

  /** The shipped instance is a symmetric 4-site instance, so the source's
      labels are the threaded ones (c1..c29) and every max-cost coefficient
      is the client-to-site cost whichever way the matrix is read. */
  lemma BundledDocument(inst: Instance)
    requires inst == Bundled
    ensures Square(inst, 4) && Symmetric(inst.cost, 4)
    ensures AsWritten(inst) == Emit(inst)
    ensures |Emit(inst).constraints| == 29
    ensures |Emit(inst).bounds| == 20 && |Emit(inst).binaries| == 20
  {
    BundledSquare(inst);
    AsWrittenContiguousIffFour(inst, 4);
  }

  lemma BundledSquare(inst: Instance)
    requires inst == Bundled
    ensures Square(inst, 4) && Symmetric(inst.cost, 4)
  {
  }

  /** The capacity row of site s+1 follows the assignment, facility-count
      and opening rows. */
  lemma CapacityRowAt(inst: Instance, st: Starts, s: nat)
    requires Shaped(inst) && s < |inst.capacity|
    ensures inst.cols + 1 + inst.rows * inst.cols + s < |Assemble(inst, st).constraints|
    ensures Assemble(inst, st).constraints[inst.cols + 1 + inst.rows * inst.cols + s]
         == Capacity(inst.rows, inst.demand, inst.capacity, st.capacity).block[s]
  {
    var Instance(rows, cols, cost, demand, capacity) := inst;
    var a := Assignment(rows, cols, st.assignment).block;
    var f := FacilityCount(rows, st.facility).block;
    var o := Opening(rows, cols, st.opening).block;
    var q := Capacity(rows, demand, capacity, st.capacity).block;
    var m := MaxCost(rows, cols, cost, st.maxCost).block;
    var cs := Assemble(inst, st).constraints;
    assert cs == a + f + o + q + m;
    assert |a + f + o| == cols + 1 + rows * cols;
    assert cs[|a + f + o| + s] == (a + f + o + q)[|a + f + o| + s] == q[s];
  }

  /** The opening row of site i+1 and client j+1 follows the assignment and
      facility-count rows, in the row-major order of the opening loops. */
  lemma OpeningRowAt(inst: Instance, st: Starts, i: nat, j: nat)
    requires Shaped(inst) && i < inst.rows && j < inst.cols
    ensures inst.cols + 1 + RowMajor(i, j, inst.rows, inst.cols) < |Assemble(inst, st).constraints|
    ensures Assemble(inst, st).constraints[inst.cols + 1 + RowMajor(i, j, inst.rows, inst.cols)]
         == Constraint(st.opening + 1 + RowMajor(i, j, inst.rows, inst.cols),
                       [Term(-1, X(j + 1, i + 1)), Term(1, Y(i + 1))], Ge, 0)
  {
    var Instance(rows, cols, cost, demand, capacity) := inst;
    var a := Assignment(rows, cols, st.assignment).block;
    var f := FacilityCount(rows, st.facility).block;
    var o := Opening(rows, cols, st.opening).block;
    var q := Capacity(rows, demand, capacity, st.capacity).block;
    var m := MaxCost(rows, cols, cost, st.maxCost).block;
    var cs := Assemble(inst, st).constraints;
    var k := RowMajor(i, j, rows, cols);
    OpeningAt(rows, cols, st.opening, i, j);
    assert cs == a + f + o + q + m;
    assert |a + f| == cols + 1;
    assert cs[|a + f| + k] == (a + f + o)[|a + f| + k] == o[k];
  }

  /** The max-cost row of client a+1 follows every other row: the last
      `cols` rows of the document are the max-cost rows. */
  lemma MaxCostRowAt(inst: Instance, st: Starts, a: nat)
    requires Shaped(inst) && a < inst.cols
    ensures inst.cols + 1 + inst.rows * inst.cols + |inst.capacity| + a < |Assemble(inst, st).constraints|
    ensures Assemble(inst, st).constraints[inst.cols + 1 + inst.rows * inst.cols + |inst.capacity| + a]
         == MaxCost(inst.rows, inst.cols, inst.cost, st.maxCost).block[a]
  {
    var Instance(rows, cols, cost, demand, capacity) := inst;
    var ar := Assignment(rows, cols, st.assignment).block;
    var f := FacilityCount(rows, st.facility).block;
    var o := Opening(rows, cols, st.opening).block;
    var q := Capacity(rows, demand, capacity, st.capacity).block;
    var m := MaxCost(rows, cols, cost, st.maxCost).block;
    var cs := Assemble(inst, st).constraints;
    assert cs == ar + f + o + q + m;
    assert |ar + f + o + q| == cols + 1 + rows * cols + |capacity|;
    assert cs[|ar + f + o + q| + a] == m[a];
  }

  /** Bounds and Binaries list the `x` grid first, row by row: the entry at
      position i*cols+j of each section is `x<i+1>_<j+1>`, bounded by 0 and 1. */
  lemma XDeclarationsAt(inst: Instance, st: Starts, i: nat, j: nat)
    requires Shaped(inst) && i < inst.rows && j < inst.cols
    ensures RowMajor(i, j, inst.rows, inst.cols) < |Assemble(inst, st).bounds|
    ensures RowMajor(i, j, inst.rows, inst.cols) < |Assemble(inst, st).binaries|
    ensures Assemble(inst, st).bounds[RowMajor(i, j, inst.rows, inst.cols)] == Bound(0, X(i + 1, j + 1), 1)
    ensures Assemble(inst, st).binaries[RowMajor(i, j, inst.rows, inst.cols)] == X(i + 1, j + 1)
  {
    var rows, cols := inst.rows, inst.cols;
    var k := RowMajor(i, j, rows, cols);
    var xb := XBounds(rows, cols);
    var xs := XBinaries(rows, cols);
    XBinariesAt(rows, cols, i, j);
    XBoundsMatchBinaries(rows, cols);
    assert xb[k].v == BoundVars(xb)[k] == xs[k];
    assert Assemble(inst, st).bounds[k] == xb[k];
    assert Assemble(inst, st).binaries[k] == xs[k];
  }

  /** After the `x` grid, Bounds and Binaries list `y1` to `y<rows>`: the
      entry at position rows*cols+s of each section is `y<s+1>`, bounded by 0
      and 1. */
  lemma YDeclarationsAt(inst: Instance, st: Starts, s: nat)
    requires Shaped(inst) && s < inst.rows
    ensures inst.rows * inst.cols + s < |Assemble(inst, st).bounds|
    ensures inst.rows * inst.cols + s < |Assemble(inst, st).binaries|
    ensures Assemble(inst, st).bounds[inst.rows * inst.cols + s] == Bound(0, Y(s + 1), 1)
    ensures Assemble(inst, st).binaries[inst.rows * inst.cols + s] == Y(s + 1)
  {
    var rows, cols := inst.rows, inst.cols;
    assert Assemble(inst, st).bounds[rows * cols + s] == YBounds(rows)[s];
    assert Assemble(inst, st).binaries[rows * cols + s] == YBinaries(rows)[s];
  }

  /** The capacity row of site 2 in the shipped document:
      `c23: -6000 y2 + 1000 x1_2 + 1200 x2_2 + 1400 x3_2 + 1350 x4_2 <= 0`. */
  lemma BundledCapacityRow(inst: Instance)
    requires inst == Bundled
    ensures Emit(inst).constraints[22]
         == Constraint(23, [Term(-6000, Y(2)), Term(1000, X(1, 2)), Term(1200, X(2, 2)), Term(1400, X(3, 2)), Term(1350, X(4, 2))], Le, 0)
  {
    var st := Threaded(inst);
    ThreadedOffsets(inst, 4);
    CapacityRowAt(inst, st, 1);
    BundledSite2(inst.demand, inst.capacity, st.capacity);
  }

  lemma BundledSite2(demand: seq<int>, capacity: seq<int>, counter: nat)
    requires demand == Bundled.demand && capacity == Bundled.capacity
    ensures Capacity(4, demand, capacity, counter).block[1]
         == Constraint(counter + 2, [Term(-6000, Y(2)), Term(1000, X(1, 2)), Term(1200, X(2, 2)), Term(1400, X(3, 2)), Term(1350, X(4, 2))], Le, 0)
  {
    var q := Capacity(4, demand, capacity, counter).block;
    assert q[1].terms == [Term(-6000, Y(2))] + seq(4, i requires 0 <= i < 4 => Term(demand[i], X(i + 1, 2)));
    assert seq(4, i requires 0 <= i < 4 => Term(demand[i], X(i + 1, 2)))
        == [Term(1000, X(1, 2)), Term(1200, X(2, 2)), Term(1400, X(3, 2)), Term(1350, X(4, 2))];
  }
}
