/** Row-major layout: flattening, masking and reshaping of nested tensors. */
module Layout {

  function Flat<T>(rows: seq<seq<T>>): seq<T> {
    if rows == [] then [] else Flat(rows[..|rows| - 1]) + rows[|rows| - 1]
  }

  predicate Rect<T>(rows: seq<seq<T>>, n: nat, width: nat) {
    |rows| == n && forall i :: 0 <= i < n ==> |rows[i]| == width
  }

  /** `tf.reshape` of flat data to [rows, width] */
  function Reshape2<T>(flat: seq<T>, rows: nat, width: nat): (r: seq<seq<T>>)
    requires |flat| == rows * width
    ensures Rect(r, rows, width)
  {
    seq(rows, i requires 0 <= i < rows => RowOf(flat, rows, width, i))
  }

  function RowOf<T>(flat: seq<T>, rows: nat, width: nat, i: nat): (r: seq<T>)
    requires |flat| == rows * width && i < rows
    ensures |r| == width
  {
    RowFits(i, rows, width);
    flat[i * width..(i + 1) * width]
  }

  lemma RowFits(i: nat, rows: nat, width: nat)
    requires i < rows
    ensures i * width + width == (i + 1) * width <= rows * width
  {
    RowsMono(i + 1, rows, width);
  }

  lemma RowsMono(a: nat, b: nat, width: nat)
    requires a <= b
    ensures a * width <= b * width
  {}

  /** The elements of flat data where the mask is true, in order. */
  function Select<T>(xs: seq<T>, mask: seq<bool>): seq<T>
    requires |xs| == |mask|
  {
    if xs == [] then [] else
      var n := |xs| - 1;
      Select(xs[..n], mask[..n]) + if mask[n] then [xs[n]] else []
  }

  lemma {:induction false} FlatLength<T>(rows: seq<seq<T>>, n: nat, width: nat)
    requires Rect(rows, n, width)
    ensures |Flat(rows)| == n * width
  {
    if n > 0 {
      FlatLength(rows[..n - 1], n - 1, width);
      assert (n - 1) * width + width == n * width;
    }
  }

  lemma FlatOne<T>(row: seq<T>)
    ensures Flat([row]) == row
  {
    assert [row][..0] == [];
  }

  lemma {:induction false} FlatCons<T>(row: seq<T>, rows: seq<seq<T>>)
    ensures Flat([row] + rows) == row + Flat(rows)
  {
    if rows == [] {
      FlatOne(row);
      assert [row] + rows == [row];
    } else {
      var n := |rows| - 1;
      var all := [row] + rows;
      assert all[..n + 1] == [row] + rows[..n] && all[n + 1] == rows[n];
      FlatCons(row, rows[..n]);
      assert (row + Flat(rows[..n])) + rows[n] == row + (Flat(rows[..n]) + rows[n]);
    }
  }

  /** Reshaping undoes flattening: row boundaries are never crossed. */
  lemma {:induction false} ReshapeFlat<T>(rows: seq<seq<T>>, n: nat, width: nat, i: nat)
    requires Rect(rows, n, width) && i < n
    ensures |Flat(rows)| == n * width && i * width + width == (i + 1) * width <= n * width
    ensures Flat(rows)[i * width..(i + 1) * width] == rows[i]
  {
    FlatLength(rows, n, width);
    RowFits(i, n, width);
    if i < n - 1 {
      ReshapeFlat(rows[..n - 1], n - 1, width, i);
    } else {
      FlatLength(rows[..n - 1], n - 1, width);
    }
    FlatSlice(rows, n, i * width, (i + 1) * width, i);
  }

  /** A slice of flat data that ends before the last row, or is the last row. */
  lemma FlatSlice<T>(rows: seq<seq<T>>, n: nat, from: nat, to: nat, i: nat)
    requires n == |rows| && i < n && from <= to <= |Flat(rows)|
    requires i < n - 1 ==> to <= |Flat(rows[..n - 1])| && Flat(rows[..n - 1])[from..to] == rows[i]
    requires i == n - 1 ==> from == |Flat(rows[..n - 1])| && to == |Flat(rows)|
    ensures Flat(rows)[from..to] == rows[i]
  {
    var front, last := Flat(rows[..n - 1]), rows[n - 1];
    assert Flat(rows) == front + last;
    if i < n - 1 {
      assert (front + last)[from..to] == front[from..to];
    } else {
      assert (front + last)[|front|..] == last;
    }
  }

  lemma ReshapeFlatAll<T>(rows: seq<seq<T>>, n: nat, width: nat)
    requires Rect(rows, n, width)
    ensures |Flat(rows)| == n * width
    ensures Reshape2(Flat(rows), n, width) == rows
  {
    FlatLength(rows, n, width);
    forall i | 0 <= i < n ensures Reshape2(Flat(rows), n, width)[i] == rows[i] {
      ReshapeFlat(rows, n, width, i);
    }
  }

  /** Position i * width + j of the flat data is row i, column j. */
  lemma FlatAt<T>(rows: seq<seq<T>>, n: nat, width: nat, i: nat, j: nat)
    requires Rect(rows, n, width) && i < n && j < width
    ensures |Flat(rows)| == n * width && 0 <= i * width + j < n * width
    ensures Flat(rows)[i * width + j] == rows[i][j]
  {
    ReshapeFlat(rows, n, width, i);
    assert Flat(rows)[i * width..(i + 1) * width][j] == rows[i][j];
  }

  /** Conversely, every flat position is some row and column. */
  lemma {:induction false} FlatFrom<T>(rows: seq<seq<T>>, n: nat, width: nat, x: nat) returns (i: nat, j: nat)
    requires Rect(rows, n, width) && x < |Flat(rows)|
    ensures i < n && j < width && x == i * width + j && Flat(rows)[x] == rows[i][j]
  {
    var front := rows[..n - 1];
    FlatLength(front, n - 1, width);
    if x < |Flat(front)| {
      i, j := FlatFrom(front, n - 1, width, x);
    } else {
      i, j := n - 1, x - |Flat(front)|;
    }
  }

  lemma {:induction false} SelectConcat<T>(a: seq<T>, b: seq<T>, p: seq<bool>, q: seq<bool>)
    requires |a| == |p| && |b| == |q|
    ensures Select(a + b, p + q) == Select(a, p) + Select(b, q)
  {
    if b == [] {
      assert a + b == a && p + q == p;
    } else {
      var n := |b| - 1;
      SelectConcat(a, b[..n], p, q[..n]);
      assert (a + b)[..|a + b| - 1] == a + b[..n];
      assert (p + q)[..|p + q| - 1] == p + q[..n];
    }
  }

  /** Masking works row by row. */
  lemma {:induction false} SelectFlat<T>(rows: seq<seq<T>>, masks: seq<seq<bool>>, picked: seq<seq<T>>)
    requires |rows| == |masks| == |picked| && |Flat(rows)| == |Flat(masks)|
    requires forall i :: 0 <= i < |rows| ==> |rows[i]| == |masks[i]| && picked[i] == Select(rows[i], masks[i])
    ensures Select(Flat(rows), Flat(masks)) == Flat(picked)
  {
    if rows != [] {
      var n := |rows| - 1;
      SelectFlat(rows[..n], masks[..n], picked[..n]);
      SelectConcat(Flat(rows[..n]), rows[n], Flat(masks[..n]), masks[n]);
    }
  }

  /** A mask that is true on the first k positions picks the first k elements. */
  lemma {:induction false} SelectPrefix<T>(xs: seq<T>, mask: seq<bool>, k: nat)
    requires |xs| == |mask| && k <= |xs|
    requires forall j :: 0 <= j < |mask| ==> (mask[j] <==> j < k)
    ensures Select(xs, mask) == xs[..k]
  {
    if xs != [] {
      var n := |xs| - 1;
      if k == |xs| {
        SelectPrefix(xs[..n], mask[..n], n);
        assert xs[..n][..n] + [xs[n]] == xs[..k];
      } else {
        SelectPrefix(xs[..n], mask[..n], k);
      }
    }
  }
}
