/** The training schedule of the modelzoo scripts (dlrm as representative): epochs and steps are fixed by
    ceiling divisions before training, and the input pipeline then has to last for that many steps. */
module Schedule {
  import opened Layout

  /** `math.ceil(a / b)`, exactly */
  function CeilDiv(a: nat, b: nat): (q: nat)
    requires b > 0
    ensures a <= b * q
    ensures q > 0 ==> b * (q - 1) < a
  {
    if a == 0 then 0 else (a - 1) / b + 1
  }

  /** q blocks of b cover a, and one block less does not. */
  predicate IsCeiling(q: nat, a: nat, b: nat) {
    a <= b * q && (q > 0 ==> b * (q - 1) < a)
  }

  lemma MulMono(b: nat, x: nat, y: nat)
    requires x <= y
    ensures b * x <= b * y
  {}

  /** ceil(a / b) reaches s exactly when a is beyond s - 1 full blocks. */
  lemma CeilDivReaches(a: nat, b: nat, s: nat)
    requires b > 0 && s > 0
    ensures CeilDiv(a, b) >= s <==> a > b * (s - 1)
  {
    var q := CeilDiv(a, b);
    if q >= s {
      MulMono(b, s - 1, q - 1);
    } else {
      MulMono(b, q, s - 1);
    }
  }

  // ---------- the plan ----------

  datatype Plan = Plan(batchSize: nat, epochs: nat, trainSteps: nat) | ZeroDivision

  /** The batch per step: the least that lets `microBatch` of them cover the requested one. */
  function BatchSize(batchArg: nat, microBatch: nat, stockTf: bool): (b: nat)
    ensures microBatch == 0 || stockTf ==> b == batchArg
    ensures microBatch != 0 && !stockTf && batchArg > 0 ==> microBatch * (b - 1) < batchArg <= microBatch * b
    ensures b == 0 <==> batchArg == 0
  {
    if microBatch != 0 && !stockTf then CeilDiv(batchArg, microBatch) else batchArg
  }

  function PlanTraining(batchArg: nat, microBatch: nat, stockTf: bool, steps: nat, examples: nat): (p: Plan)
    ensures p.Plan? ==> p.batchSize == BatchSize(batchArg, microBatch, stockTf) > 0
    ensures p.ZeroDivision? <==> batchArg == 0 || (steps != 0 && examples == 0)
    ensures p.Plan? && steps == 0 ==> p.epochs == 1 && IsCeiling(p.trainSteps, examples, p.batchSize)
    ensures p.Plan? && steps != 0 ==> p.trainSteps == steps && IsCeiling(p.epochs, p.batchSize * steps, examples)
  {
    var batchSize := BatchSize(batchArg, microBatch, stockTf);
    if batchSize == 0 || (steps != 0 && examples == 0) then ZeroDivision
    else if steps == 0 then Plan(batchSize, 1, CeilDiv(1 * examples, batchSize))
    else Plan(batchSize, CeilDiv(batchSize * steps, examples), steps)
  }

  // ---------- the pipelines ----------

  /** `dataset.batch(b)`: the last batch may be short. */
  function Batch<T>(data: seq<T>, b: nat): (r: seq<seq<T>>)
    requires b > 0
  {
    if data == [] then [] else if |data| <= b then [data]
    else [data[..b]] + Batch(data[b..], b)
  }

  /** One shuffled pass over the data per epoch. */
  ghost predicate Passes<T>(passes: seq<seq<T>>, data: seq<T>) {
    forall k :: 0 <= k < |passes| ==> |passes[k]| == |data| && multiset(passes[k]) == multiset(data)
  }

  /** Text files: shuffle, repeat, then batch across epoch boundaries. */
  function TextBatches<T>(passes: seq<seq<T>>, b: nat): seq<seq<T>>
    requires b > 0
  {
    Batch(Flat(passes), b)
  }

  /** Parquet files: every pass is batched on its own; the batches of a pass are shuffled, then repeated. */
  ghost predicate ParquetPass<T>(batches: seq<seq<T>>, data: seq<T>, b: nat)
    requires b > 0
  {
    multiset(batches) == multiset(Batch(data, b))
  }

  ghost predicate ParquetPasses<T>(passes: seq<seq<seq<T>>>, data: seq<T>, b: nat)
    requires b > 0
  {
    forall k :: 0 <= k < |passes| ==> ParquetPass(passes[k], data, b)
  }

  // ---------- facts about the pipelines ----------

  lemma {:induction false} BatchCount<T>(data: seq<T>, b: nat)
    requires b > 0
    ensures |Batch(data, b)| == CeilDiv(|data|, b)
  {
    if |data| > b {
      BatchCount(data[b..], b);
      var q, n := CeilDiv(|data| - b, b), |data|;
      assert b * (q + 1) == b * q + b;
      CeilDivUnique(n, b, q + 1);
    } else if data != [] {
      CeilDivUnique(|data|, b, 1);
    }
  }

  lemma CeilDivUnique(a: nat, b: nat, q: nat)
    requires b > 0 && q > 0
    requires b * (q - 1) < a <= b * q
    ensures CeilDiv(a, b) == q
  {
    CeilDivReaches(a, b, q);
    CeilDivReaches(a, b, q + 1);
  }

  /** Batching loses and reorders nothing. */
  lemma {:induction false} BatchFlatten<T>(data: seq<T>, b: nat)
    requires b > 0
    ensures Flat(Batch(data, b)) == data
  {
    if data != [] && |data| <= b {
      FlatOne(data);
    } else if data != [] {
      BatchFlatten(data[b..], b);
      FlatCons(data[..b], Batch(data[b..], b));
      assert data[..b] + data[b..] == data;
    }
  }

  /** Batch k is full exactly when the data reaches its end. */
  lemma {:induction false} BatchFull<T>(data: seq<T>, b: nat, k: nat)
    requires b > 0 && k < |Batch(data, b)|
    ensures |Batch(data, b)[k]| == b <==> b * (k + 1) <= |data|
    ensures 0 < |Batch(data, b)[k]| <= b
    decreases k
  {
    if k == 0 {
      assert b * 1 == b;
    } else if |data| > b {
      BatchFull(data[b..], b, k - 1);
      assert b * (k + 1) == b * k + b;
      assert Batch(data, b)[k] == Batch(data[b..], b)[k - 1];
    }
  }

  // ---------- the schedule lasts ----------

  /** With e passes the text pipeline gives s steps exactly when e * N > b * (s - 1), and gives s full
      batches exactly when e * N >= b * s. */
  lemma TextSupply<T>(passes: seq<seq<T>>, data: seq<T>, b: nat, s: nat)
    requires b > 0 && s > 0 && Passes(passes, data)
    ensures |TextBatches(passes, b)| >= s <==> |passes| * |data| > b * (s - 1)
    ensures |TextBatches(passes, b)| >= s && |TextBatches(passes, b)[s - 1]| == b
            <==> |passes| * |data| >= b * s
  {
    var stream := Flat(passes);
    FlatLength(passes, |passes|, |data|);
    BatchCount(stream, b);
    CeilDivReaches(|stream|, b, s);
    MulMono(b, s - 1, s);
    assert b * s == b * (s - 1) + b;
    if |Batch(stream, b)| >= s {
      BatchFull(stream, b, s - 1);
    }
  }

  lemma TextOnePass<T>(passes: seq<seq<T>>, data: seq<T>, b: nat)
    requires b > 0 && |passes| == 1 && Passes(passes, data)
    ensures |TextBatches(passes, b)| == CeilDiv(|data|, b)
    ensures multiset(Flat(TextBatches(passes, b))) == multiset(data)
  {
    FlatOne(passes[0]);
    assert passes == [passes[0]];
    BatchCount(passes[0], b);
    BatchFlatten(passes[0], b);
  }

  lemma TextFullBatches<T>(passes: seq<seq<T>>, data: seq<T>, b: nat, s: nat)
    requires b > 0 && s > 0 && data != [] && Passes(passes, data)
    requires |passes| == CeilDiv(b * s, |data|)
    ensures |TextBatches(passes, b)| >= s
    ensures forall k :: 0 <= k < s ==> |TextBatches(passes, b)[k]| == b
  {
    var stream := Flat(passes);
    FlatLength(passes, |passes|, |data|);
    assert |stream| >= b * s;
    TextSupply(passes, data, b, s);
    forall k | 0 <= k < s ensures |Batch(stream, b)[k]| == b {
      MulMono(b, k + 1, s);
      BatchFull(stream, b, k);
    }
  }

  /** Text pipeline: training reaches its last step. A step limit is met with full batches only; without a
      limit the steps use up the data, every example once. */
  lemma TextNeverRunsOut<T>(batchArg: nat, microBatch: nat, stockTf: bool, steps: nat,
                            data: seq<T>, passes: seq<seq<T>>)
    requires PlanTraining(batchArg, microBatch, stockTf, steps, |data|).Plan?
    requires |passes| == PlanTraining(batchArg, microBatch, stockTf, steps, |data|).epochs
    requires Passes(passes, data)
    ensures var p := PlanTraining(batchArg, microBatch, stockTf, steps, |data|);
      var batches := TextBatches(passes, p.batchSize);
      && |batches| >= p.trainSteps
      && (steps > 0 ==> forall k :: 0 <= k < p.trainSteps ==> |batches[k]| == p.batchSize)
      && (steps == 0 ==> |batches| == p.trainSteps && multiset(Flat(batches)) == multiset(data))
  {
    var b := PlanTraining(batchArg, microBatch, stockTf, steps, |data|).batchSize;
    if steps == 0 {
      TextOnePass(passes, data, b);
    } else {
      TextFullBatches(passes, data, b, steps);
    }
  }

  /** Shuffling whole batches moves rows only. */
  lemma {:induction false} FlatPermuted<T>(xs: seq<seq<T>>, ys: seq<seq<T>>)
    requires multiset(xs) == multiset(ys)
    ensures multiset(Flat(xs)) == multiset(Flat(ys))
    decreases |xs|
  {
    assert |multiset(xs)| == |xs| && |multiset(ys)| == |ys|;
    if xs != [] {
      var n := |xs| - 1;
      var last := xs[n];
      assert xs == xs[..n] + [last];
      assert last in multiset(xs);
      var i :| 0 <= i < |ys| && ys[i] == last;
      var rest := ys[..i] + ys[i + 1..];
      assert ys == ys[..i] + [last] + ys[i + 1..];
      assert multiset(xs) == multiset(xs[..n]) + multiset{last};
      assert multiset(ys) == multiset(ys[..i]) + multiset{last} + multiset(ys[i + 1..]);
      assert multiset(rest) == multiset(ys[..i]) + multiset(ys[i + 1..]);
      assert multiset(xs[..n]) == multiset(xs) - multiset{last} == multiset(ys) - multiset{last} == multiset(rest);
      FlatPermuted(xs[..n], rest);
      FlatMiddle(ys[..i], last, ys[i + 1..]);
    }
  }

  lemma {:induction false} FlatMiddle<T>(a: seq<seq<T>>, row: seq<T>, b: seq<seq<T>>)
    ensures multiset(Flat(a + [row] + b)) == multiset(Flat(a + b)) + multiset(row)
  {
    if b == [] {
      assert a + [row] + b == a + [row] && a + b == a;
      assert (a + [row])[..|a|] == a;
    } else {
      var n := |b| - 1;
      var full, rest := a + [row] + b, a + b;
      assert full[..|full| - 1] == a + [row] + b[..n] && full[|full| - 1] == b[n];
      assert rest[..|rest| - 1] == a + b[..n] && rest[|rest| - 1] == b[n];
      FlatMiddle(a, row, b[..n]);
    }
  }

  lemma ParquetPassDelivers<T>(batches: seq<seq<T>>, data: seq<T>, b: nat)
    requires b > 0 && ParquetPass(batches, data, b)
    ensures |batches| == CeilDiv(|data|, b) && multiset(Flat(batches)) == multiset(data)
  {
    assert |multiset(batches)| == |batches| && |multiset(Batch(data, b))| == |Batch(data, b)|;
    BatchCount(data, b);
    FlatPermuted(batches, Batch(data, b));
    BatchFlatten(data, b);
  }

  /** Parquet pipeline: training reaches its last step, each pass delivers every row once, and without a step
      limit the steps use up exactly one pass. */
  lemma ParquetNeverRunsOut<T>(batchArg: nat, microBatch: nat, stockTf: bool, steps: nat,
                               data: seq<T>, passes: seq<seq<seq<T>>>)
    requires PlanTraining(batchArg, microBatch, stockTf, steps, |data|).Plan?
    requires |passes| == PlanTraining(batchArg, microBatch, stockTf, steps, |data|).epochs
    requires ParquetPasses(passes, data, PlanTraining(batchArg, microBatch, stockTf, steps, |data|).batchSize)
    ensures var p := PlanTraining(batchArg, microBatch, stockTf, steps, |data|);
      && |Flat(passes)| >= p.trainSteps
      && (forall k :: 0 <= k < |passes| ==> multiset(Flat(passes[k])) == multiset(data))
      && (steps == 0 ==> |Flat(passes)| == p.trainSteps && multiset(Flat(Flat(passes))) == multiset(data))
  {
    var p := PlanTraining(batchArg, microBatch, stockTf, steps, |data|);
    ParquetSupply(passes, data, p.batchSize);
    if steps == 0 {
      ParquetOnePass(passes, data, p.batchSize);
    } else {
      EnoughShortPasses(p.batchSize, steps, |data|);
    }
  }

  lemma ParquetOnePass<T>(passes: seq<seq<seq<T>>>, data: seq<T>, b: nat)
    requires b > 0 && |passes| == 1 && ParquetPasses(passes, data, b)
    ensures |Flat(passes)| == CeilDiv(|data|, b) && multiset(Flat(Flat(passes))) == multiset(data)
  {
    ParquetPassDelivers(passes[0], data, b);
    FlatOne(passes[0]);
    assert passes == [passes[0]];
  }

  /** Every pass delivers ceil(N / b) batches. */
  lemma ParquetSupply<T>(passes: seq<seq<seq<T>>>, data: seq<T>, b: nat)
    requires b > 0 && ParquetPasses(passes, data, b)
    ensures |Flat(passes)| == |passes| * CeilDiv(|data|, b)
    ensures forall k :: 0 <= k < |passes| ==> multiset(Flat(passes[k])) == multiset(data)
  {
    forall k | 0 <= k < |passes|
      ensures |passes[k]| == CeilDiv(|data|, b) && multiset(Flat(passes[k])) == multiset(data)
    {
      ParquetPassDelivers(passes[k], data, b);
    }
    FlatLength(passes, |passes|, CeilDiv(|data|, b));
  }

  /** Rounding up once per pass never yields fewer batches than rounding up once. */
  lemma EnoughShortPasses(b: nat, s: nat, n: nat)
    requires b > 0 && n > 0
    ensures CeilDiv(b * s, n) * CeilDiv(n, b) >= s
  {
    RoundedTwice(b, s, n, CeilDiv(b * s, n), CeilDiv(n, b));
  }

  lemma RoundedTwice(b: nat, s: nat, n: nat, e: nat, q: nat)
    requires b > 0 && b * s <= n * e && n <= b * q
    ensures e * q >= s
  {
    MulMono(e, n, b * q);
    assert b * s <= b * (e * q) by {
      assert (b * q) * e == b * (e * q);
    }
    CancelFactor(b, s, e * q);
  }

  lemma CancelFactor(b: nat, x: nat, y: nat)
    requires b > 0 && b * x <= b * y
    ensures x <= y
  {}

  // ---------- minimality ----------

  /** The chosen number of epochs is the least one that fills every batch. */
  lemma EpochsLeastForFullBatches<T>(batchArg: nat, microBatch: nat, stockTf: bool, steps: nat,
                                     data: seq<T>, passes: seq<seq<T>>)
    requires PlanTraining(batchArg, microBatch, stockTf, steps, |data|).Plan? && steps > 0 && Passes(passes, data)
    ensures var p := PlanTraining(batchArg, microBatch, stockTf, steps, |data|);
      var batches := TextBatches(passes, p.batchSize);
      |passes| >= p.epochs <==> |batches| >= p.trainSteps && |batches[p.trainSteps - 1]| == p.batchSize
  {
    var p := PlanTraining(batchArg, microBatch, stockTf, steps, |data|);
    FullBatchesNeed(p.batchSize, steps, data, passes);
  }

  lemma FullBatchesNeed<T>(b: nat, steps: nat, data: seq<T>, passes: seq<seq<T>>)
    requires b > 0 && steps > 0 && data != [] && Passes(passes, data)
    ensures |passes| >= CeilDiv(b * steps, |data|)
            <==> |TextBatches(passes, b)| >= steps && |TextBatches(passes, b)[steps - 1]| == b
  {
    TextSupply(passes, data, b, steps);
    var e, n := CeilDiv(b * steps, |data|), |data|;
    if |passes| >= e {
      MulMono(n, e, |passes|);
    } else {
      MulMono(n, |passes|, e - 1);
    }
  }

  /** e is the least number of passes with which the text pipeline reaches the last step. */
  ghost predicate LeastToSupply(e: nat, n: nat, b: nat, steps: nat)
    requires b > 0
  {
    CeilDiv(e * n, b) >= steps && forall d: nat :: d < e ==> CeilDiv(d * n, b) < steps
  }

  /** It is not the least one that merely reaches the last step, since a short last batch may do. It is exactly
      when the last batch lies within one pass: its last example has at least b - 1 examples of its pass before it. */
  lemma EpochsLeastIff(batchArg: nat, microBatch: nat, stockTf: bool, steps: nat, examples: nat)
    requires PlanTraining(batchArg, microBatch, stockTf, steps, examples).Plan? && steps > 0
    ensures var b := BatchSize(batchArg, microBatch, stockTf);
      LeastToSupply(PlanTraining(batchArg, microBatch, stockTf, steps, examples).epochs, examples, b, steps)
      <==> (b * steps - 1) % examples >= b - 1
  {
    var b := BatchSize(batchArg, microBatch, stockTf);
    LeastIff(b, steps, examples);
    LastExampleInPass(b, steps, examples);
  }

  /** The epochs before the last chosen one cover everything but the position of the last needed example. */
  lemma LastExampleInPass(b: nat, steps: nat, n: nat)
    requires b > 0 && steps > 0 && n > 0
    ensures b * steps > 0 && CeilDiv(b * steps, n) > 0
    ensures (CeilDiv(b * steps, n) - 1) * n + (b * steps - 1) % n == b * steps - 1
  {
    assert b * steps > 0;
    var a := b * steps - 1;
    assert CeilDiv(b * steps, n) == a / n + 1;
    assert n * (a / n) + a % n == a;
    assert n * (a / n) == (a / n) * n;
  }

  lemma LeastIff(b: nat, steps: nat, n: nat)
    requires b > 0 && steps > 0 && n > 0
    ensures var e := CeilDiv(b * steps, n);
      e > 0 && (LeastToSupply(e, n, b, steps) <==> (e - 1) * n <= b * steps - b)
  {
    var e := CeilDiv(b * steps, n);
    ChosenEpochsSupply(b, steps, n);
    assert b * (steps - 1) == b * steps - b;
    if (e - 1) * n <= b * (steps - 1) {
      forall d: nat | d < e ensures CeilDiv(d * n, b) < steps {
        FewerEpochsFail(d, e, n, b, steps);
      }
    } else {
      CeilDivReaches((e - 1) * n, b, steps);
    }
  }

  lemma FewerEpochsFail(d: nat, e: nat, n: nat, b: nat, steps: nat)
    requires b > 0 && steps > 0 && d < e && (e - 1) * n <= b * (steps - 1)
    ensures CeilDiv(d * n, b) < steps
  {
    MulMono(n, d, e - 1);
    CeilDivReaches(d * n, b, steps);
  }

  lemma ChosenEpochsSupply(b: nat, steps: nat, n: nat)
    requires b > 0 && steps > 0 && n > 0
    ensures var e := CeilDiv(b * steps, n); e > 0 && CeilDiv(e * n, b) >= steps
  {
    var e := CeilDiv(b * steps, n);
    assert b * steps == b * (steps - 1) + b;
    assert b * (steps - 1) >= 0;
    assert e * n == n * e;
    CeilDivReaches(e * n, b, steps);
  }

  /** Ten examples, batches of four, three steps: two epochs are chosen and one would reach step three. */
  lemma EpochsNotAlwaysLeast()
    ensures PlanTraining(4, 0, false, 3, 10) == Plan(4, 2, 3) && !LeastToSupply(2, 10, 4, 3)
  {
    assert CeilDiv(4 * 3, 10) == 2;
    assert CeilDiv(1 * 10, 4) == 3;
  }

  /** e is the least number of passes with which the Parquet pipeline reaches the last step. */
  ghost predicate LeastPasses(e: nat, perPass: nat, steps: nat) {
    e * perPass >= steps && forall d: nat :: d < e ==> d * perPass < steps
  }

  /** The least number of Parquet passes is ceil(steps / ceil(N / b)). The chosen epochs are that number exactly when
      so many passes hold a full batch of rows for every step. */
  lemma ParquetEpochsLeastIff(batchArg: nat, microBatch: nat, stockTf: bool, steps: nat, examples: nat)
    requires PlanTraining(batchArg, microBatch, stockTf, steps, examples).Plan? && steps > 0
    ensures var b := BatchSize(batchArg, microBatch, stockTf);
      var perPass := CeilDiv(examples, b);
      perPass > 0 &&
      var least := CeilDiv(steps, perPass);
      var planned := PlanTraining(batchArg, microBatch, stockTf, steps, examples).epochs;
      && LeastPasses(least, perPass, steps)
      && (LeastPasses(planned, perPass, steps) <==> planned == least)
      && (planned == least <==> b * steps <= examples * least)
  {
    var b := BatchSize(batchArg, microBatch, stockTf);
    var perPass := CeilDiv(examples, b);
    EnoughShortPasses(b, steps, examples);
    CeilDivIsLeastPasses(perPass, steps);
    RowsDecideEpochs(b * steps, examples, perPass, steps);
  }

  lemma CeilDivIsLeastPasses(perPass: nat, steps: nat)
    requires perPass > 0
    ensures LeastPasses(CeilDiv(steps, perPass), perPass, steps)
  {
    var least := CeilDiv(steps, perPass);
    forall d: nat | d < least ensures d * perPass < steps {
      MulMono(perPass, d, least - 1);
    }
  }

  /** Epochs that suffice are the least passes exactly when these hold all the rows. */
  lemma RowsDecideEpochs(rows: nat, examples: nat, perPass: nat, steps: nat)
    requires examples > 0 && perPass > 0 && CeilDiv(rows, examples) * perPass >= steps
    ensures var least, planned := CeilDiv(steps, perPass), CeilDiv(rows, examples);
      && (LeastPasses(planned, perPass, steps) <==> planned == least)
      && (planned == least <==> rows <= examples * least)
  {
    var least, planned := CeilDiv(steps, perPass), CeilDiv(rows, examples);
    CeilDivIsLeastPasses(perPass, steps);
    assert planned >= least;
    if planned > least {
      MulMono(examples, least, planned - 1);
    }
  }

  /** Five rows, batches of four, two steps: two epochs are chosen and one pass has both batches. */
  lemma ParquetEpochsNotAlwaysLeast()
    ensures PlanTraining(4, 0, false, 2, 5) == Plan(4, 2, 2) && CeilDiv(5, 4) == 2 && !LeastPasses(2, 2, 2)
  {
    assert CeilDiv(4 * 2, 5) == 2;
    assert 1 * 2 >= 2;
  }
}
