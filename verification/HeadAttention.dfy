/** Multi-head self-attention of BST. All heads are computed at once by moving them from the last axis to the
    batch axis; the mask is brought to the same layout by tiling and reshaping. */
module HeadAttention {
  import opened Vectors
  import opened Layout

  // ---------- the mask ----------

  /** `tf.sequence_mask(len, maxlen=size-1)` behind one column of ones */
  function MaskRow(len: int, size: nat): (r: seq<bool>)
    requires size > 0
    ensures |r| == size
  {
    [true] + seq(size - 1, j => j < len)
  }

  function Mask(lens: seq<int>, size: nat): (r: seq<seq<bool>>)
    requires size > 0
    ensures Rect(r, |lens|, size)
  {
    seq(|lens|, b requires 0 <= b < |lens| => MaskRow(lens[b], size))
  }

  function Copies<T>(row: T, times: nat): (r: seq<T>)
    ensures |r| == times && forall i :: 0 <= i < times ==> r[i] == row
  {
    seq(times, _ => row)
  }

  /** `tf.tile` of one row along its axis */
  function TileRow<T>(row: seq<T>, times: nat): (r: seq<T>)
    ensures |r| == times * |row|
  {
    FlatLength(Copies(row, times), times, |row|);
    Flat(Copies(row, times))
  }

  /** `tf.tile(m, [rowTimes, colTimes])` */
  function Tile<T>(m: seq<seq<T>>, width: nat, rowTimes: nat, colTimes: nat): (r: seq<seq<T>>)
    requires Rect(m, |m|, width)
    ensures Rect(r, rowTimes * |m|, colTimes * width)
  {
    var wide := seq(|m|, b requires 0 <= b < |m| => TileRow(m[b], colTimes));
    TileKeeps(wide, rowTimes, colTimes * width);
    TileRow(wide, rowTimes)
  }

  lemma TileKeeps<T>(rows: seq<seq<T>>, times: nat, width: nat)
    requires Rect(rows, |rows|, width)
    ensures Rect(TileRow(rows, times), times * |rows|, width)
  {
    FlatLength(Copies(rows, times), times, |rows|);
    forall x | 0 <= x < times * |rows| ensures |TileRow(rows, times)[x]| == width {
      var i, j := FlatFrom(Copies(rows, times), times, |rows|, x);
    }
  }

  /** `tf.reshape(t, (-1, rows, cols))`, the first dimension being n */
  function Reshape3<T>(flat: seq<T>, n: nat, rows: nat, cols: nat): (r: seq<seq<seq<T>>>)
    requires |flat| == n * (rows * cols)
    ensures |r| == n && forall i :: 0 <= i < n ==> Rect(r[i], rows, cols)
  {
    seq(n, i requires 0 <= i < n => Reshape2(RowOf(flat, n, rows * cols, i), rows, cols))
  }

  function Masks(lens: seq<int>, heads: nat, size: nat): (r: seq<seq<seq<bool>>>)
    requires size > 0
    ensures |r| == heads * |lens| && forall n :: 0 <= n < |r| ==> Rect(r[n], size, size)
  {
    var tiled := Tile(Mask(lens, size), size, heads, size);
    FlatLength(tiled, heads * |lens|, size * size);
    Reshape3(Flat(tiled), heads * |lens|, size, size)
  }

  // ---------- the computation ----------

  /** Head h of the last axis */
  function HeadSlice(v: Vec, hd: nat, heads: nat, h: nat): (r: Vec)
    requires |v| == heads * hd && h < heads
    ensures |r| == hd
  {
    RowOf(v, heads, hd, h)
  }

  function HeadOf(m: Mat, hd: nat, heads: nat, h: nat): (r: Mat)
    requires Rect(m, |m|, heads * hd) && h < heads
    ensures Rect(r, |m|, hd)
  {
    seq(|m|, i requires 0 <= i < |m| => HeadSlice(m[i], hd, heads, h))
  }

  /** The h-th part of `tf.split(t, heads, axis=-1)` */
  function SplitPart(t: Tensor3, size: nat, hd: nat, heads: nat, h: nat): (r: Tensor3)
    requires Shape3(t, |t|, size, heads * hd) && h < heads
    ensures Shape3(r, |t|, size, hd)
  {
    seq(|t|, b requires 0 <= b < |t| => HeadOf(t[b], hd, heads, h))
  }

  function SplitParts(t: Tensor3, size: nat, hd: nat, heads: nat): (r: seq<Tensor3>)
    requires Shape3(t, |t|, size, heads * hd)
    ensures Rect(r, heads, |t|)
  {
    seq(heads, h requires 0 <= h < heads => SplitPart(t, size, hd, heads, h))
  }

  /** `tf.concat(tf.split(t, heads, axis=-1), axis=0)` */
  function HeadsToBatch(t: Tensor3, size: nat, hd: nat, heads: nat): (r: Tensor3)
    requires Shape3(t, |t|, size, heads * hd)
    ensures Shape3(r, heads * |t|, size, hd)
  {
    var parts := SplitParts(t, size, hd, heads);
    FlatLength(parts, heads, |t|);
    assert forall n :: 0 <= n < |Flat(parts)| ==> Rect(Flat(parts)[n], size, hd) by {
      forall n | 0 <= n < |Flat(parts)| ensures Rect(Flat(parts)[n], size, hd) {
        var h, b := FlatFrom(parts, heads, |t|, n);
      }
    }
    Flat(parts)
  }

  function Penalised(score: real, visible: bool): real {
    score - 1000000000.0 * (if visible then 0.0 else 1.0)
  }

  /** Masked scores of one query row against all keys */
  function ScoreRow(query: Vec, k: Mat, maskRow: seq<bool>): (r: Vec)
    requires Rect(k, |maskRow|, |query|)
    ensures |r| == |maskRow|
  {
    seq(|k|, j requires 0 <= j < |k| => Penalised(Dot(query, k[j]), maskRow[j]))
  }

  ghost predicate KeepsLength(softmax: Vec -> Vec) {
    forall x: Vec :: |softmax(x)| == |x|
  }

  /** Softmax of the masked scores of one query row, times the values */
  ghost function AttendRow(query: Vec, k: Mat, v: Mat, maskRow: seq<bool>, hd: nat, softmax: Vec -> Vec): (r: Vec)
    requires |query| == hd && Rect(k, |maskRow|, hd) && Rect(v, |maskRow|, hd) && KeepsLength(softmax)
    ensures |r| == hd
  {
    VecMat(softmax(ScoreRow(query, k, maskRow)), v, hd)
  }

  /** The two matrix products for one entry of the (enlarged) batch */
  ghost function Attend(q: Mat, k: Mat, v: Mat, mask: seq<seq<bool>>, size: nat, hd: nat, softmax: Vec -> Vec): (r: Mat)
    requires Rect(q, size, hd) && Rect(k, size, hd) && Rect(v, size, hd) && Rect(mask, size, size)
    requires KeepsLength(softmax)
    ensures Rect(r, size, hd)
  {
    seq(size, i requires 0 <= i < size => AttendRow(q[i], k, v, mask[i], hd, softmax))
  }

  /** Everything at once over heads * batch entries. */
  ghost function BatchedAttention(q: Tensor3, k: Tensor3, v: Tensor3, lens: seq<int>,
                                  size: nat, hd: nat, heads: nat, softmax: Vec -> Vec): (r: Tensor3)
    requires size > 0 && KeepsLength(softmax)
    requires Shape3(q, |lens|, size, heads * hd) && Shape3(k, |lens|, size, heads * hd)
    requires Shape3(v, |lens|, size, heads * hd)
    ensures Shape3(r, heads * |lens|, size, hd)
  {
    var qs, ks := HeadsToBatch(q, size, hd, heads), HeadsToBatch(k, size, hd, heads);
    var vs := HeadsToBatch(v, size, hd, heads);
    var masks := Masks(lens, heads, size);
    seq(heads * |lens|, n requires 0 <= n < heads * |lens| =>
      Attend(qs[n], ks[n], vs[n], masks[n], size, hd, softmax))
  }

  /** `tf.concat(tf.split(att, heads, axis=0), axis=2)` */
  function BatchToHeads(att: Tensor3, batch: nat, heads: nat, size: nat, hd: nat): (r: Tensor3)
    requires Shape3(att, heads * batch, size, hd)
    ensures Shape3(r, batch, size, heads * hd)
  {
    var parts := Reshape2(att, heads, batch);
    PartsShape(att, batch, heads, size, hd);
    seq(batch, b requires 0 <= b < batch => seq(size, i requires 0 <= i < size =>
      JoinHeads(parts, batch, size, hd, b, i)))
  }

  ghost predicate PartsOk(parts: seq<Tensor3>, batch: nat, size: nat, hd: nat) {
    forall h :: 0 <= h < |parts| ==> Shape3(parts[h], batch, size, hd)
  }

  lemma PartsShape(att: Tensor3, batch: nat, heads: nat, size: nat, hd: nat)
    requires Shape3(att, heads * batch, size, hd)
    ensures PartsOk(Reshape2(att, heads, batch), batch, size, hd)
  {
    forall h | 0 <= h < heads ensures Shape3(Reshape2(att, heads, batch)[h], batch, size, hd) {
      RowFits(h, heads, batch);
    }
  }

  function JoinHeads(parts: seq<Tensor3>, batch: nat, size: nat, hd: nat, b: nat, i: nat): (r: Vec)
    requires PartsOk(parts, batch, size, hd) && b < batch && i < size
    ensures |r| == |parts| * hd
  {
    var rows := seq(|parts|, h requires 0 <= h < |parts| => parts[h][b][i]);
    FlatLength(rows, |parts|, hd);
    Flat(rows)
  }

  ghost function MultiHeadAttention(q: Tensor3, k: Tensor3, v: Tensor3, lens: seq<int>,
                                    size: nat, hd: nat, heads: nat, softmax: Vec -> Vec): (r: Tensor3)
    requires size > 0 && KeepsLength(softmax)
    requires Shape3(q, |lens|, size, heads * hd) && Shape3(k, |lens|, size, heads * hd)
    requires Shape3(v, |lens|, size, heads * hd)
    ensures Shape3(r, |lens|, size, heads * hd)
  {
    BatchToHeads(BatchedAttention(q, k, v, lens, size, hd, heads, softmax), |lens|, heads, size, hd)
  }

  // ---------- the simple definition ----------

  /** Query i of example b sees key j: the first key always, key j up to the history length. */
  predicate Visible(len: int, j: nat) {
    j == 0 || j <= len
  }

  function VisibleRow(len: int, size: nat): (r: seq<bool>)
    ensures |r| == size
  {
    seq(size, j requires 0 <= j < size => Visible(len, j))
  }

  /** One head of one example, one query: no batch axis, no tiling. */
  ghost function HeadRow(q: Mat, k: Mat, v: Mat, len: int, size: nat, hd: nat, heads: nat, softmax: Vec -> Vec,
                         h: nat, i: nat): (r: Vec)
    requires Rect(q, size, heads * hd) && Rect(k, size, heads * hd) && Rect(v, size, heads * hd)
    requires KeepsLength(softmax) && h < heads && i < size
    ensures |r| == hd
  {
    AttendRow(HeadSlice(q[i], hd, heads, h), HeadOf(k, hd, heads, h), HeadOf(v, hd, heads, h),
              VisibleRow(len, size), hd, softmax)
  }

  ghost function HeadRows(q: Mat, k: Mat, v: Mat, len: int, size: nat, hd: nat, heads: nat, softmax: Vec -> Vec,
                          i: nat): (r: seq<Vec>)
    requires Rect(q, size, heads * hd) && Rect(k, size, heads * hd) && Rect(v, size, heads * hd)
    requires KeepsLength(softmax) && i < size
    ensures Rect(r, heads, hd)
  {
    seq(heads, h requires 0 <= h < heads => HeadRow(q, k, v, len, size, hd, heads, softmax, h, i))
  }

  // ---------- they agree ----------

  lemma MaskRowVisible(len: int, size: nat)
    requires size > 0
    ensures MaskRow(len, size) == VisibleRow(len, size)
  {}

  lemma EntryFits(h: nat, heads: nat, b: nat, batch: nat)
    requires h < heads && b < batch
    ensures 0 <= h * batch + b < heads * batch
  {
    RowFits(h, heads, batch);
  }

  lemma TiledAt<T>(row: seq<T>, times: nat, i: nat)
    requires i < times
    ensures Reshape2(TileRow(row, times), times, |row|)[i] == row
  {
    ReshapeFlatAll(Copies(row, times), times, |row|);
  }

  lemma TileRowAt<T>(row: seq<T>, times: nat, h: nat, b: nat)
    requires h < times && b < |row|
    ensures 0 <= h * |row| + b < times * |row|
    ensures TileRow(row, times)[h * |row| + b] == row[b]
  {
    FlatAt(Copies(row, times), times, |row|, h, b);
  }

  /** Tiling and reshaping puts the mask row of example b before every query of entry h * batch + b. */
  lemma MasksAt(lens: seq<int>, heads: nat, size: nat, h: nat, b: nat, i: nat)
    requires size > 0 && h < heads && b < |lens| && i < size
    ensures 0 <= h * |lens| + b < heads * |lens|
    ensures Masks(lens, heads, size)[h * |lens| + b][i] == VisibleRow(lens[b], size)
  {
    EntryFits(h, heads, b, |lens|);
    var mask := Mask(lens, size);
    var tiled := Tile(mask, size, heads, size);
    var n, total := h * |lens| + b, heads * |lens|;
    ReshapeFlatAll(tiled, total, size * size);
    assert RowOf(Flat(tiled), total, size * size, n) == Reshape2(Flat(tiled), total, size * size)[n] == tiled[n];
    var wide := seq(|mask|, c requires 0 <= c < |mask| => TileRow(mask[c], size));
    TileRowAt(wide, heads, h, b);
    assert tiled[n] == TileRow(mask[b], size);
    TiledAt(mask[b], size, i);
    MaskRowVisible(lens[b], size);
  }

  lemma HeadsToBatchAt(t: Tensor3, size: nat, hd: nat, heads: nat, h: nat, b: nat)
    requires Shape3(t, |t|, size, heads * hd) && h < heads && b < |t|
    ensures 0 <= h * |t| + b < heads * |t|
    ensures HeadsToBatch(t, size, hd, heads)[h * |t| + b] == HeadOf(t[b], hd, heads, h)
  {
    FlatAt(SplitParts(t, size, hd, heads), heads, |t|, h, b);
  }

  /** Entry h * batch + b of the batched computation is head h of example b. */
  lemma BatchedEntry(q: Tensor3, k: Tensor3, v: Tensor3, lens: seq<int>,
                     size: nat, hd: nat, heads: nat, softmax: Vec -> Vec, h: nat, b: nat, i: nat)
    requires size > 0 && KeepsLength(softmax) && h < heads && b < |lens| && i < size
    requires Shape3(q, |lens|, size, heads * hd) && Shape3(k, |lens|, size, heads * hd)
    requires Shape3(v, |lens|, size, heads * hd)
    ensures 0 <= h * |lens| + b < heads * |lens|
    ensures BatchedAttention(q, k, v, lens, size, hd, heads, softmax)[h * |lens| + b][i]
            == HeadRow(q[b], k[b], v[b], lens[b], size, hd, heads, softmax, h, i)
  {
    HeadsToBatchAt(q, size, hd, heads, h, b);
    HeadsToBatchAt(k, size, hd, heads, h, b);
    HeadsToBatchAt(v, size, hd, heads, h, b);
    MasksAt(lens, heads, size, h, b, i);
  }

  lemma PartAt(att: Tensor3, batch: nat, heads: nat, h: nat, b: nat)
    requires |att| == heads * batch && h < heads && b < batch
    ensures 0 <= h * batch + b < heads * batch
    ensures Reshape2(att, heads, batch)[h][b] == att[h * batch + b]
  {
    EntryFits(h, heads, b, batch);
    RowFits(h, heads, batch);
  }

  /** Head-batched attention is the plain loop over examples, queries and heads. Each row depends on its own
      example only, and sees exactly the keys its history length allows. */
  lemma MultiHeadIsPerHead(q: Tensor3, k: Tensor3, v: Tensor3, lens: seq<int>,
                           size: nat, hd: nat, heads: nat, softmax: Vec -> Vec, b: nat, i: nat)
    requires size > 0 && KeepsLength(softmax) && b < |lens| && i < size
    requires Shape3(q, |lens|, size, heads * hd) && Shape3(k, |lens|, size, heads * hd)
    requires Shape3(v, |lens|, size, heads * hd)
    ensures MultiHeadAttention(q, k, v, lens, size, hd, heads, softmax)[b][i]
            == Flat(HeadRows(q[b], k[b], v[b], lens[b], size, hd, heads, softmax, i))
  {
    var att := BatchedAttention(q, k, v, lens, size, hd, heads, softmax);
    var parts := Reshape2(att, heads, |lens|);
    PartsShape(att, |lens|, heads, size, hd);
    var rows := seq(|parts|, h requires 0 <= h < |parts| => parts[h][b][i]);
    forall h | 0 <= h < heads
      ensures rows[h] == HeadRows(q[b], k[b], v[b], lens[b], size, hd, heads, softmax, i)[h]
    {
      PartAt(att, |lens|, heads, h, b);
      BatchedEntry(q, k, v, lens, size, hd, heads, softmax, h, b, i);
    }
    assert rows == HeadRows(q[b], k[b], v[b], lens[b], size, hd, heads, softmax, i);
  }

  // ---------- entry by entry ----------

  /** Position d of head h on the last axis */
  function Lane(h: nat, d: nat, hd: nat, heads: nat): (x: nat)
    requires h < heads && d < hd
    ensures x < heads * hd
  {
    EntryFits(h, heads, d, hd);
    h * hd + d
  }

  /** The score of key j for query i in head h: a product over the head's lanes, lowered by 10^9 when hidden. */
  function PlainScore(q: Mat, k: Mat, len: int, size: nat, hd: nat, heads: nat, h: nat, i: nat, j: nat): real
    requires Rect(q, size, heads * hd) && Rect(k, size, heads * hd) && h < heads && i < size && j < size
  {
    Sum(seq(hd, d requires 0 <= d < hd => Times(q[i][Lane(h, d, hd, heads)], k[j][Lane(h, d, hd, heads)])))
      - if j == 0 || j <= len then 0.0 else 1000000000.0
  }

  /** One entry of the output, written out over the original tensors. */
  ghost function PlainEntry(q: Mat, k: Mat, v: Mat, len: int, size: nat, hd: nat, heads: nat, softmax: Vec -> Vec,
                            h: nat, i: nat, d: nat): real
    requires Rect(q, size, heads * hd) && Rect(k, size, heads * hd) && Rect(v, size, heads * hd)
    requires KeepsLength(softmax) && h < heads && i < size && d < hd
  {
    var weights := softmax(seq(size, j requires 0 <= j < size => PlainScore(q, k, len, size, hd, heads, h, i, j)));
    Sum(seq(size, j requires 0 <= j < size => Times(weights[j], v[j][Lane(h, d, hd, heads)])))
  }

  lemma SliceAt(v: Vec, hd: nat, heads: nat, h: nat, d: nat)
    requires |v| == heads * hd && h < heads && d < hd
    ensures HeadSlice(v, hd, heads, h)[d] == v[Lane(h, d, hd, heads)]
  {
    RowFits(h, heads, hd);
  }

  lemma ScoreAt(q: Mat, k: Mat, len: int, size: nat, hd: nat, heads: nat, h: nat, i: nat, j: nat)
    requires Rect(q, size, heads * hd) && Rect(k, size, heads * hd) && h < heads && i < size && j < size
    ensures ScoreRow(HeadSlice(q[i], hd, heads, h), HeadOf(k, hd, heads, h), VisibleRow(len, size))[j]
            == PlainScore(q, k, len, size, hd, heads, h, i, j)
  {
    var lanes := seq(hd, d requires 0 <= d < hd => Times(q[i][Lane(h, d, hd, heads)], k[j][Lane(h, d, hd, heads)]));
    var qs, ks := HeadSlice(q[i], hd, heads, h), HeadSlice(k[j], hd, heads, h);
    forall d | 0 <= d < hd ensures Mul(qs, ks)[d] == lanes[d] {
      SliceAt(q[i], hd, heads, h, d);
      SliceAt(k[j], hd, heads, h, d);
    }
    assert Mul(qs, ks) == lanes;
  }

  lemma HeadRowAt(q: Mat, k: Mat, v: Mat, len: int, size: nat, hd: nat, heads: nat, softmax: Vec -> Vec,
                  h: nat, i: nat, d: nat)
    requires Rect(q, size, heads * hd) && Rect(k, size, heads * hd) && Rect(v, size, heads * hd)
    requires KeepsLength(softmax) && h < heads && i < size && d < hd
    ensures HeadRow(q, k, v, len, size, hd, heads, softmax, h, i)[d]
            == PlainEntry(q, k, v, len, size, hd, heads, softmax, h, i, d)
  {
    var scores := ScoreRow(HeadSlice(q[i], hd, heads, h), HeadOf(k, hd, heads, h), VisibleRow(len, size));
    var plain := seq(size, j requires 0 <= j < size => PlainScore(q, k, len, size, hd, heads, h, i, j));
    forall j | 0 <= j < size ensures scores[j] == plain[j] {
      ScoreAt(q, k, len, size, hd, heads, h, i, j);
    }
    assert scores == plain;
    ValuesAt(softmax(plain), v, size, hd, heads, h, d);
  }

  lemma ValuesAt(weights: Vec, v: Mat, size: nat, hd: nat, heads: nat, h: nat, d: nat)
    requires |weights| == size && Rect(v, size, heads * hd) && h < heads && d < hd
    ensures VecMat(weights, HeadOf(v, hd, heads, h), hd)[d]
            == Sum(seq(size, j requires 0 <= j < size => Times(weights[j], v[j][Lane(h, d, hd, heads)])))
  {
    var column := Column(HeadOf(v, hd, heads, h), hd, d);
    var terms := seq(size, j requires 0 <= j < size => Times(weights[j], v[j][Lane(h, d, hd, heads)]));
    forall j | 0 <= j < size ensures Mul(weights, column)[j] == terms[j] {
      SliceAt(v[j], hd, heads, h, d);
    }
    assert Mul(weights, column) == terms;
  }

  /** Every entry of the batched result, from the tensors of its own example alone. */
  lemma MultiHeadEntry(q: Tensor3, k: Tensor3, v: Tensor3, lens: seq<int>, size: nat, hd: nat, heads: nat,
                       softmax: Vec -> Vec, b: nat, i: nat, h: nat, d: nat)
    requires size > 0 && KeepsLength(softmax) && b < |lens| && i < size && h < heads && d < hd
    requires Shape3(q, |lens|, size, heads * hd) && Shape3(k, |lens|, size, heads * hd)
    requires Shape3(v, |lens|, size, heads * hd)
    ensures MultiHeadAttention(q, k, v, lens, size, hd, heads, softmax)[b][i][Lane(h, d, hd, heads)]
            == PlainEntry(q[b], k[b], v[b], lens[b], size, hd, heads, softmax, h, i, d)
  {
    MultiHeadIsPerHead(q, k, v, lens, size, hd, heads, softmax, b, i);
    FlatAt(HeadRows(q[b], k[b], v[b], lens[b], size, hd, heads, softmax, i), heads, hd, h, d);
    HeadRowAt(q[b], k[b], v[b], lens[b], size, hd, heads, softmax, h, i, d);
  }

  // ---------- the sequence the attention reads ----------

  /** The history cut or zero-padded to size - 1 rows, then the current item. */
  function AllIds(hist: Mat, current: Vec, size: nat, dim: nat): (r: Mat)
    requires size > 0 && Rect(hist, |hist|, dim) && |current| == dim
    ensures Rect(r, size, dim)
  {
    var fitted := if size > |hist| then hist + Copies(Zeros(dim), size - |hist| - 1) else hist[..size - 1];
    fitted + [current]
  }

  /** Both branches of the padding give one fixed shape: the first size - 1 history rows in place, zeros for
      the missing ones, the current item last. */
  lemma AllIdsRows(hist: Mat, current: Vec, size: nat, dim: nat, j: nat)
    requires size > 0 && Rect(hist, |hist|, dim) && |current| == dim && j < size
    ensures AllIds(hist, current, size, dim)[j] ==
      if j == size - 1 then current else if j < |hist| then hist[j] else Zeros(dim)
  {}
}
