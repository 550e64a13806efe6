/** The pairwise interaction of DLRM: all dot products of a stacked feature tensor are computed, the strict
    lower triangle is picked by one boolean mask over the whole batch, and the result is reshaped. */
module DotInteraction {
  import opened Vectors
  import opened Layout

  predicate Stacked(features: Tensor3, fields: nat, dim: nat) {
    Shape3(features, |features|, fields, dim)
  }

  /** `tf.matmul(f, f, transpose_b=True)` for one example */
  function Gram(f: Mat, fields: nat, dim: nat): (g: Mat)
    requires Rect(f, fields, dim)
    ensures Rect(g, fields, fields)
  {
    seq(fields, i requires 0 <= i < fields => seq(fields, j requires 0 <= j < fields => Dot(f[i], f[j])))
  }

  function Ones(fields: nat): (m: Mat)
    ensures Rect(m, fields, fields)
  {
    seq(fields, _ => seq(fields, _ => 1.0))
  }

  /** `tf.linalg.band_part(m, lower, upper)`: a negative bound keeps the whole triangle. */
  function BandPart(m: Mat, fields: nat, lower: int, upper: int): (r: Mat)
    requires Rect(m, fields, fields)
    ensures Rect(r, fields, fields)
  {
    seq(fields, i requires 0 <= i < fields => seq(fields, j requires 0 <= j < fields =>
      if (lower < 0 || i - j <= lower) && (upper < 0 || j - i <= upper) then m[i][j] else 0.0))
  }

  function Minus(a: Mat, b: Mat, fields: nat): (r: Mat)
    requires Rect(a, fields, fields) && Rect(b, fields, fields)
    ensures Rect(r, fields, fields)
  {
    seq(fields, i requires 0 <= i < fields => seq(fields, j requires 0 <= j < fields => a[i][j] - b[i][j]))
  }

  function ToBool(m: Mat, fields: nat): (r: seq<seq<bool>>)
    requires Rect(m, fields, fields)
    ensures Rect(r, fields, fields)
  {
    seq(fields, i requires 0 <= i < fields => seq(fields, j requires 0 <= j < fields => m[i][j] != 0.0))
  }

  function LowerMask(fields: nat): (r: seq<seq<bool>>)
    ensures Rect(r, fields, fields)
  {
    var ones := Ones(fields);
    ToBool(Minus(ones, BandPart(ones, fields, 0, -1), fields), fields)
  }

  function Pairs(fields: nat): nat {
    fields * (fields - 1) / 2
  }

  function FlatGram(f: Mat, fields: nat, dim: nat): (r: Vec)
    requires Rect(f, fields, dim)
    ensures |r| == fields * fields
  {
    FlatLength(Gram(f, fields, dim), fields, fields);
    Flat(Gram(f, fields, dim))
  }

  function FlatGrams(features: Tensor3, fields: nat, dim: nat): (r: seq<Vec>)
    requires Stacked(features, fields, dim)
    ensures Rect(r, |features|, fields * fields)
  {
    seq(|features|, b requires 0 <= b < |features| => FlatGram(features[b], fields, dim))
  }

  function FlatMasks(batch: nat, fields: nat): (r: seq<seq<bool>>)
    ensures Rect(r, batch, fields * fields)
  {
    FlatLength(LowerMask(fields), fields, fields);
    seq(batch, _ => Flat(LowerMask(fields)))
  }

  /** `tf.boolean_mask` on the whole [batch, fields, fields] tensor */
  function MaskedGrams(features: Tensor3, fields: nat, dim: nat): Vec
    requires Stacked(features, fields, dim)
  {
    FlatLength(FlatGrams(features, fields, dim), |features|, fields * fields);
    FlatLength(FlatMasks(|features|, fields), |features|, fields * fields);
    Select(Flat(FlatGrams(features, fields, dim)), Flat(FlatMasks(|features|, fields)))
  }

  function DotOp(features: Tensor3, fields: nat, dim: nat): (r: seq<Vec>)
    requires Stacked(features, fields, dim)
    ensures Rect(r, |features|, Pairs(fields))
  {
    MaskedLength(features, fields, dim);
    Reshape2(MaskedGrams(features, fields, dim), |features|, Pairs(fields))
  }

  // ---------- what it computes ----------

  /** The strict lower triangle of the first n rows, row after row. */
  function Triangle(m: Mat, n: nat): Vec
    requires n <= |m| && forall i :: 0 <= i < n ==> |m[i]| >= i
  {
    if n == 0 then [] else Triangle(m, n - 1) + m[n - 1][..n - 1]
  }

  lemma PairsStep(n: nat)
    ensures Pairs(n + 1) == Pairs(n) + n
  {
    assert (n + 1) * n == n * (n - 1) + 2 * n;
  }

  lemma {:induction false} TriangleLength(m: Mat, n: nat)
    requires n <= |m| && forall i :: 0 <= i < n ==> |m[i]| >= i
    ensures |Triangle(m, n)| == Pairs(n)
  {
    if n > 0 {
      TriangleLength(m, n - 1);
      PairsStep(n - 1);
    }
  }

  lemma MaskRow(fields: nat, i: nat, j: nat)
    requires i < fields && j < fields
    ensures LowerMask(fields)[i][j] <==> j < i
  {}

  lemma MaskedRow(row: Vec, fields: nat, i: nat)
    requires |row| == fields && i < fields
    ensures Select(row, LowerMask(fields)[i]) == row[..i]
  {
    forall j | 0 <= j < fields ensures LowerMask(fields)[i][j] <==> j < i {
      MaskRow(fields, i, j);
    }
    SelectPrefix(row, LowerMask(fields)[i], i);
  }

  /** One example: masking its Gram matrix leaves its triangle. */
  lemma MaskedGram(g: Mat, fields: nat)
    requires Rect(g, fields, fields)
    ensures |Flat(g)| == |Flat(LowerMask(fields))|
    ensures Select(Flat(g), Flat(LowerMask(fields))) == Triangle(g, fields)
  {
    FlatLength(g, fields, fields);
    FlatLength(LowerMask(fields), fields, fields);
    var picked := seq(fields, i requires 0 <= i < fields => g[i][..i]);
    forall i | 0 <= i < fields ensures picked[i] == Select(g[i], LowerMask(fields)[i]) {
      MaskedRow(g[i], fields, i);
    }
    SelectFlat(g, LowerMask(fields), picked);
    FlatTriangle(g, fields, picked, fields);
    assert picked[..fields] == picked;
  }

  lemma {:induction false} FlatTriangle(g: Mat, fields: nat, picked: seq<Vec>, n: nat)
    requires Rect(g, fields, fields) && n <= fields == |picked|
    requires forall i :: 0 <= i < fields ==> picked[i] == g[i][..i]
    ensures Flat(picked[..n]) == Triangle(g, n)
  {
    if n > 0 {
      FlatTriangle(g, fields, picked, n - 1);
      assert picked[..n][..n - 1] == picked[..n - 1];
    }
  }

  /** All dot products of one example's distinct fields, (1,0), (2,0), (2,1), (3,0), ... */
  function GramTriangle(f: Mat, fields: nat, dim: nat): (r: Vec)
    requires Rect(f, fields, dim)
    ensures |r| == Pairs(fields)
  {
    TriangleLength(Gram(f, fields, dim), fields);
    Triangle(Gram(f, fields, dim), fields)
  }

  function Triangles(features: Tensor3, fields: nat, dim: nat): (r: seq<Vec>)
    requires Stacked(features, fields, dim)
    ensures Rect(r, |features|, Pairs(fields))
  {
    seq(|features|, b requires 0 <= b < |features| => GramTriangle(features[b], fields, dim))
  }

  lemma MaskedIsTriangles(features: Tensor3, fields: nat, dim: nat)
    requires Stacked(features, fields, dim)
    ensures MaskedGrams(features, fields, dim) == Flat(Triangles(features, fields, dim))
  {
    var grams, masks := FlatGrams(features, fields, dim), FlatMasks(|features|, fields);
    FlatLength(grams, |features|, fields * fields);
    FlatLength(masks, |features|, fields * fields);
    forall b | 0 <= b < |features|
      ensures |grams[b]| == |masks[b]| && Triangles(features, fields, dim)[b] == Select(grams[b], masks[b])
    {
      MaskedGram(Gram(features[b], fields, dim), fields);
    }
    SelectFlat(grams, masks, Triangles(features, fields, dim));
  }

  lemma MaskedLength(features: Tensor3, fields: nat, dim: nat)
    requires Stacked(features, fields, dim)
    ensures |MaskedGrams(features, fields, dim)| == |features| * Pairs(fields)
  {
    MaskedIsTriangles(features, fields, dim);
    FlatLength(Triangles(features, fields, dim), |features|, Pairs(fields));
  }

  /** The global mask and reshape never cross a batch boundary: row b is the triangle of example b. */
  lemma DotOpRows(features: Tensor3, fields: nat, dim: nat)
    requires Stacked(features, fields, dim)
    ensures DotOp(features, fields, dim) == Triangles(features, fields, dim)
  {
    MaskedIsTriangles(features, fields, dim);
    ReshapeFlatAll(Triangles(features, fields, dim), |features|, Pairs(fields));
  }

  /** The column of the pair (i, j), i > j. */
  function PairColumn(i: nat, j: nat): nat {
    Pairs(i) + j
  }

  lemma {:induction false} PairsMono(m: nat, n: nat)
    requires m <= n
    ensures Pairs(m) <= Pairs(n)
    decreases n
  {
    if m < n {
      PairsMono(m, n - 1);
      PairsStep(n - 1);
    }
  }

  lemma {:induction false} TriangleAt(m: Mat, n: nat, i: nat, j: nat)
    requires n <= |m| && (forall i :: 0 <= i < n ==> |m[i]| >= i) && j < i < n
    ensures |Triangle(m, n)| == Pairs(n) && PairColumn(i, j) < Pairs(n)
    ensures Triangle(m, n)[PairColumn(i, j)] == m[i][j]
  {
    TriangleLength(m, n);
    TriangleLength(m, n - 1);
    PairsStep(i);
    PairsMono(i + 1, n);
    if i < n - 1 {
      TriangleAt(m, n - 1, i, j);
    }
  }

  /** Column i(i-1)/2 + j of row b is the dot product of fields i and j of example b. */
  lemma DotOpEntry(features: Tensor3, fields: nat, dim: nat, b: nat, i: nat, j: nat)
    requires Stacked(features, fields, dim) && b < |features| && j < i < fields
    ensures PairColumn(i, j) < Pairs(fields)
    ensures DotOp(features, fields, dim)[b][PairColumn(i, j)] == Dot(features[b][i], features[b][j])
  {
    DotOpRows(features, fields, dim);
    TriangleAt(Gram(features[b], fields, dim), fields, i, j);
  }

  /** Every column belongs to exactly one pair. */
  lemma {:induction false} ColumnHasOnePair(fields: nat, c: nat) returns (i: nat, j: nat)
    requires c < Pairs(fields)
    ensures j < i < fields && PairColumn(i, j) == c
    ensures forall k: nat, l: nat :: l < k < fields && PairColumn(k, l) == c ==> k == i && l == j
  {
    if fields == 0 {
      assert false;
    } else {
      PairsStep(fields - 1);
      if c < Pairs(fields - 1) {
        i, j := ColumnHasOnePair(fields - 1, c);
      } else {
        i, j := fields - 1, c - Pairs(fields - 1);
        forall k: nat, l: nat | l < k < fields && PairColumn(k, l) == c ensures k == i && l == j {
          PairsStep(k);
          if k < fields - 1 {
            PairsMono(k + 1, fields - 1);
          }
        }
      }
    }
  }
}
