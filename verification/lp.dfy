/** Structured form of the CPLEX LP document the capacitated p-center
    generator writes: the decision variables, linear terms, labelled
    constraints, variable bounds and binary declarations, together with what
    it means for a valuation of the variables to satisfy a constraint.
 */
module Lp {

  /** The decision variables of the program, carrying the 1-based indices of
      their emitted names: `X(a, b)` is `x<a>_<b>`, `Y(s)` is `y<s>` and `W` is
      the objective variable. Which range each index of an `x` runs over
      depends on the block that mentions it; wherever an `x` shares a row with
      a `y`, its second index is the index of that `y`. */
  datatype Var = X(client: nat, site: nat) | Y(site: nat) | W

  /** One summand `coef v` of a linear expression. */
  datatype Term = Term(coef: int, v: Var)

  datatype Relation = Eq | Le | Ge

  /** One row ` c<number>:  <terms> <rel> <rhs>` of the Subject To section. */
  datatype Constraint = Constraint(number: nat, terms: seq<Term>, rel: Relation, rhs: int)

  /** One line ` <lower> <= <v> <= <upper>` of the Bounds section. */
  datatype Bound = Bound(lower: int, v: Var, upper: int)

  /** A block of constraints together with the value of the label counter
      after its last constraint. */
  datatype Emitted = Emitted(block: seq<Constraint>, counter: nat)

  /** The whole document: the variable minimised under `Minimize`, the rows
      of `Subject To`, the lines of `Bounds` and the names under `Binaries`. */
  datatype Program = Program(objective: Var, constraints: seq<Constraint>, bounds: seq<Bound>, binaries: seq<Var>)

  /** The label of the k-th constraint (0-based) of a block whose counter
      started at `counter` is `counter + 1 + k`: labels run on without a gap. */
  predicate Numbered(cs: seq<Constraint>, counter: nat) {
    forall k :: 0 <= k < |cs| ==> cs[k].number == counter + 1 + k
  }

  /** A generator started at `counter` advanced the counter once per
      constraint it emitted and labelled them in order. */
  predicate Advances(e: Emitted, counter: nat) {
    e.counter == counter + |e.block| && Numbered(e.block, counter)
  }

  /** Index of entry (i, j) when an rows x cols grid is listed row by row. */
  function RowMajor(i: nat, j: nat, rows: nat, cols: nat): (k: nat)
    requires i < rows && j < cols
    ensures k < rows * cols
  {
    MulMonotone(i + 1, rows, cols);
    i * cols + j
  }

  /** No element of `s` occurs twice. */
  predicate Distinct<T(==)>(s: seq<T>) {
    forall p, q :: 0 <= p < q < |s| ==> s[p] != s[q]
  }

  lemma MulMonotone(a: nat, b: nat, c: nat)
    requires a <= b
    ensures a * c <= b * c
  {
  }

  lemma NumberedAppend(a: seq<Constraint>, b: seq<Constraint>, counter: nat)
    requires Numbered(a, counter) && Numbered(b, counter + |a|)
    ensures Numbered(a + b, counter)
  {
    forall k | 0 <= k < |a + b|
      ensures (a + b)[k].number == counter + 1 + k
    {
      if k >= |a| {
        assert (a + b)[k] == b[k - |a|];
      }
    }
  }

  // ---------------------------------------------------------------------
  // Meaning of a constraint under a valuation of the variables
  // ---------------------------------------------------------------------

  /** An assignment of values to the variables. Values are integers, so the
      continuous objective variable `W` is read only at integer values. */
  type Valuation = Var -> int

  /** The plain sum of a sequence of integers. */
  function SumSeq(xs: seq<int>): int {
    if |xs| == 0 then 0 else xs[0] + SumSeq(xs[1..])
  }

  /** The value of a linear expression, read left to right. */
  function LinSum(ts: seq<Term>, val: Valuation): int {
    if |ts| == 0 then 0 else ts[0].coef * val(ts[0].v) + LinSum(ts[1..], val)
  }

  predicate Holds(c: Constraint, val: Valuation) {
    var lhs := LinSum(c.terms, val);
    match c.rel
    case Eq => lhs == c.rhs
    case Le => lhs <= c.rhs
    case Ge => lhs >= c.rhs
  }

  predicate AllHold(cs: seq<Constraint>, val: Valuation) {
    forall k :: 0 <= k < |cs| ==> Holds(cs[k], val)
  }

  /** A linear expression is worth the sum of its summands' values. */
  lemma {:induction false} LinSumIsSum(ts: seq<Term>, val: Valuation)
    ensures LinSum(ts, val) == SumSeq(seq(|ts|, k requires 0 <= k < |ts| => ts[k].coef * val(ts[k].v)))
  {
    var xs := seq(|ts|, k requires 0 <= k < |ts| => ts[k].coef * val(ts[k].v));
    if |ts| > 0 {
      LinSumIsSum(ts[1..], val);
      assert xs[1..] == seq(|ts[1..]|, k requires 0 <= k < |ts[1..]| => ts[1..][k].coef * val(ts[1..][k].v));
    }
  }

  lemma {:induction false} LinSumAppend(a: seq<Term>, b: seq<Term>, val: Valuation)
    ensures LinSum(a + b, val) == LinSum(a, val) + LinSum(b, val)
  {
    if |a| > 0 {
      assert (a + b)[1..] == a[1..] + b;
      LinSumAppend(a[1..], b, val);
    } else {
      assert a + b == b;
    }
  }

  lemma AllHoldAppend(a: seq<Constraint>, b: seq<Constraint>, val: Valuation)
    ensures AllHold(a + b, val) <==> AllHold(a, val) && AllHold(b, val)
  {
    if AllHold(a, val) && AllHold(b, val) {
      forall k | 0 <= k < |a + b|
        ensures Holds((a + b)[k], val)
      {
        if k >= |a| {
          assert (a + b)[k] == b[k - |a|];
        }
      }
    }
    if AllHold(a + b, val) {
      forall k | 0 <= k < |a|
        ensures Holds(a[k], val)
      {
        assert (a + b)[k] == a[k];
      }
      forall k | 0 <= k < |b|
        ensures Holds(b[k], val)
      {
        assert (a + b)[|a| + k] == b[k];
      }
    }
  }

  // ---------------------------------------------------------------------
  // Variables mentioned by a list of constraints
  // ---------------------------------------------------------------------

  /** Every variable that carries a coefficient in some constraint of `cs`. */
  function Used(cs: seq<Constraint>): set<Var> {
    set k, j | 0 <= k < |cs| && 0 <= j < |cs[k].terms| :: cs[k].terms[j].v
  }

  lemma UsedAppend(a: seq<Constraint>, b: seq<Constraint>)
    ensures Used(a + b) == Used(a) + Used(b)
  {
    forall v | v in Used(a + b)
      ensures v in Used(a) + Used(b)
    {
      var k, j :| 0 <= k < |a + b| && 0 <= j < |(a + b)[k].terms| && (a + b)[k].terms[j].v == v;
      if k >= |a| {
        assert (a + b)[k] == b[k - |a|];
      }
    }
    forall v | v in Used(a)
      ensures v in Used(a + b)
    {
      var k, j :| 0 <= k < |a| && 0 <= j < |a[k].terms| && a[k].terms[j].v == v;
      assert (a + b)[k] == a[k];
    }
    forall v | v in Used(b)
      ensures v in Used(a + b)
    {
      var k, j :| 0 <= k < |b| && 0 <= j < |b[k].terms| && b[k].terms[j].v == v;
      assert (a + b)[|a| + k] == b[k];
    }
  }
}
