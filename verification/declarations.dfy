/** The `Bounds` and `Binaries` sections: the two bound generators and the
    two binary-declaration generators. Each mirrors its own loop in the
    source, so that their agreement is something to prove rather than
    something built in.
 */
module Declarations {
  import opened Lp
  import opened Blocks

  /** The variables a list of bounds constrains, in order. */
  function BoundVars(bs: seq<Bound>): (vs: seq<Var>)
    ensures |vs| == |bs| && forall k :: 0 <= k < |bs| ==> vs[k] == bs[k].v
  {
    seq(|bs|, k requires 0 <= k < |bs| => bs[k].v)
  }

  /** `0 <= x<i>_<j> <= 1` for i = 1..rows (outer) and j = 1..cols (inner). */
  function XBounds(rows: nat, cols: nat): (bs: seq<Bound>)
    ensures |bs| == rows * cols
    ensures forall k :: 0 <= k < |bs| ==> bs[k].lower == 0 && bs[k].upper == 1
    decreases rows
  {
    if rows == 0 then []
    else XBounds(rows - 1, cols) + seq(cols, j requires 0 <= j < cols => Bound(0, X(rows, j + 1), 1))
  }

  /** `0 <= y<i> <= 1` for i = 1..rows. */
  function YBounds(rows: nat): (bs: seq<Bound>)
    ensures |bs| == rows
    ensures forall k :: 0 <= k < rows ==> bs[k] == Bound(0, Y(k + 1), 1)
    decreases rows
  {
    if rows == 0 then [] else YBounds(rows - 1) + [Bound(0, Y(rows), 1)]
  }

  /** The names `x<i>_<j>` under Binaries, i = 1..rows (outer), j = 1..cols
      (inner). */
  function XBinaries(rows: nat, cols: nat): (vs: seq<Var>)
    ensures |vs| == rows * cols
    decreases rows
  {
    if rows == 0 then []
    else XBinaries(rows - 1, cols) + seq(cols, j requires 0 <= j < cols => X(rows, j + 1))
  }

  /** Binaries declares each assignment variable of the rows x cols grid
      exactly once. */
  lemma {:induction false} XBinariesExactlyOnce(rows: nat, cols: nat)
    ensures forall v :: v in XBinaries(rows, cols) <==> v in XGrid(rows, cols)
    ensures Distinct(XBinaries(rows, cols))
    decreases rows
  {
    if rows > 0 {
      XBinariesExactlyOnce(rows - 1, cols);
      var prefix := XBinaries(rows - 1, cols);
      var row := seq(cols, j requires 0 <= j < cols => X(rows, j + 1));
      var vs := prefix + row;
      assert vs == XBinaries(rows, cols);
      forall v | v in XGrid(rows, cols)
        ensures v in vs
      {
        if v.client == rows {
          assert v == row[v.site - 1];
        } else {
          assert v in XGrid(rows - 1, cols);
        }
      }
      forall v | v in vs
        ensures v in XGrid(rows, cols)
      {
        if v in row {
          var j :| 0 <= j < cols && row[j] == v;
        } else {
          assert v in XGrid(rows - 1, cols);
        }
      }
      forall p, q | 0 <= p < q < |vs|
        ensures vs[p] != vs[q]
      {
        if q < |prefix| {
          assert vs[p] == prefix[p] && vs[q] == prefix[q];
        } else if p >= |prefix| {
          assert vs[p] == row[p - |prefix|] && vs[q] == row[q - |prefix|];
        } else {
          assert vs[p] == prefix[p] && prefix[p] in XGrid(rows - 1, cols);
          assert vs[q] == row[q - |prefix|];
        }
      }
    }
  }

  /** The names `y<i>` under Binaries, i = 1..rows. */
  function YBinaries(rows: nat): (vs: seq<Var>)
    ensures |vs| == rows
    ensures forall k :: 0 <= k < rows ==> vs[k] == Y(k + 1)
    decreases rows
  {
    if rows == 0 then [] else YBinaries(rows - 1) + [Y(rows)]
  }

  /** The Binaries list is in row-major order. */
  lemma {:induction false} XBinariesAt(rows: nat, cols: nat, i: nat, j: nat)
    requires i < rows && j < cols
    ensures XBinaries(rows, cols)[RowMajor(i, j, rows, cols)] == X(i + 1, j + 1)
    decreases rows
  {
    var prefix := XBinaries(rows - 1, cols);
    if i < rows - 1 {
      XBinariesAt(rows - 1, cols, i, j);
      assert RowMajor(i, j, rows, cols) == RowMajor(i, j, rows - 1, cols);
    } else {
      assert RowMajor(i, j, rows, cols) == |prefix| + j;
    }
  }

  /** The x bounds constrain exactly the declared x binaries, in the same
      order. */
  lemma {:induction false} XBoundsMatchBinaries(rows: nat, cols: nat)
    ensures BoundVars(XBounds(rows, cols)) == XBinaries(rows, cols)
    decreases rows
  {
    if rows > 0 {
      XBoundsMatchBinaries(rows - 1, cols);
      var prefix := XBounds(rows - 1, cols);
      var row := seq(cols, j requires 0 <= j < cols => Bound(0, X(rows, j + 1), 1));
      assert BoundVars(prefix + row) == BoundVars(prefix) + BoundVars(row);
    }
  }

  /** Bounds and Binaries list the same variables in the same order, every
      bound is the interval [0, 1], and no variable is declared twice. */
  lemma BoundsMatchBinaries(rows: nat, cols: nat)
    ensures BoundVars(XBounds(rows, cols) + YBounds(rows)) == XBinaries(rows, cols) + YBinaries(rows)
    ensures forall b :: b in XBounds(rows, cols) + YBounds(rows) ==> b.lower == 0 && b.upper == 1
    ensures Distinct(XBinaries(rows, cols) + YBinaries(rows))
    ensures forall v :: v in XBinaries(rows, cols) + YBinaries(rows) <==> v in XGrid(rows, cols) + YRange(rows)
  {
    var xb, yb := XBounds(rows, cols), YBounds(rows);
    XBoundsMatchBinaries(rows, cols);
    assert BoundVars(xb + yb) == BoundVars(xb) + BoundVars(yb);
    var xs, ys := XBinaries(rows, cols), YBinaries(rows);
    XBinariesExactlyOnce(rows, cols);
    assert forall v :: v in ys ==> v.Y?;
    assert forall v :: v in ys <==> v in YRange(rows) by {
      forall v | v in YRange(rows)
        ensures v in ys
      {
        assert v == ys[v.site - 1];
      }
    }
    forall p, q | 0 <= p < q < |xs + ys|
      ensures (xs + ys)[p] != (xs + ys)[q]
    {
      if p >= |xs| {
        assert (xs + ys)[p] == ys[p - |xs|];
      } else if q < |xs| {
      } else {
        assert (xs + ys)[p] == xs[p];
        assert (xs + ys)[p] in xs;
      }
    }
  }

  /** A bound line is satisfied by a valuation. */
  predicate BoundHolds(b: Bound, val: Valuation) {
    b.lower <= val(b.v) <= b.upper
  }

  /** For integer valuations the Bounds section says exactly what the
      Binaries section says: every declared variable is 0 or 1. */
  lemma BoundsSayBinary(rows: nat, cols: nat, val: Valuation)
    ensures (forall b :: b in XBounds(rows, cols) + YBounds(rows) ==> BoundHolds(b, val))
        <==> (forall v :: v in XBinaries(rows, cols) + YBinaries(rows) ==> val(v) == 0 || val(v) == 1)
  {
    var bs := XBounds(rows, cols) + YBounds(rows);
    var vs := XBinaries(rows, cols) + YBinaries(rows);
    BoundsMatchBinaries(rows, cols);
    assert forall k :: 0 <= k < |bs| ==> vs[k] == bs[k].v;
    if forall b :: b in bs ==> BoundHolds(b, val) {
      forall v | v in vs
        ensures val(v) == 0 || val(v) == 1
      {
        var k :| 0 <= k < |vs| && vs[k] == v;
        assert BoundHolds(bs[k], val);
      }
    }
    if forall v :: v in vs ==> val(v) == 0 || val(v) == 1 {
      forall b | b in bs
        ensures BoundHolds(b, val)
      {
        var k :| 0 <= k < |bs| && bs[k] == b;
        assert vs[k] in vs;
      }
    }
  }
}
