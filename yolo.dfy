/** The YOLOv8 detection post-processor `Yolo`: every output scale is a pair of a box
    tensor (4 * dflLen distance bins per cell) and a score tensor (one channel per
    class), both laid out channel-major over an H x W grid. Each cell proposes its best
    class when that class's raw score passes the quantized threshold; the four box edges
    come from the distribution focal loss decoding; the proposals of all scales then go
    through one class-agnostic non-maximum suppression. */
module Yolo {
  import opened Types
  import opened Sorting
  import opened Ops
  import Layout

  /** `Yolo::Detection`: class id, box and score. */
  datatype Detection = Detection(id: int, rect: Rect, score: real)

  /** The parameters the constructor stores in the task's parameter table. */
  datatype Params = Params(inputSize: Size, scoreThres: real, nmsThres: real)

  /** The constructor's default arguments: a 640 x 640 input, score threshold 0.25 and
      NMS threshold 0.7. */
  function DefaultParams(): (p: Params)
    ensures p.inputSize.width == 640 && p.inputSize.height == 640
    ensures p.scoreThres == 0.25 && p.nmsThres == 0.7
    ensures p.scoreThres < p.nmsThres
  {
    Params(Size(640, 640), 0.25, 0.7)
  }

  /** `rknn_tensor_mem`: the samples at `virt_addr` and the buffer's `size`. */
  datatype Output = Output(data: seq<real>, size: nat)

  /** The three arrays `Postprocess` receives: output buffers, logical attributes and
      native attributes, indexed alike. */
  datatype Outputs = Outputs(mem: seq<Output>, attr: seq<TensorAttr>, native: seq<TensorAttr>)

  /** One proposal of a grid cell, before suppression. */
  datatype Candidate = Candidate(box: Rect, score: real, id: int)

  /** Sample `k` of a buffer, or 0 outside it (the decoder only reads inside). */
  function At(s: seq<real>, k: int): real
  {
    if 0 <= k < |s| then s[k] else 0.0
  }

  // ----- one scale -----

  /** `base + k * step`, by repeated addition as the decoder's loops compute it
      (`off += total`). */
  function Stride(base: nat, k: nat, step: nat): nat
  {
    if k == 0 then base else Stride(base, k - 1, step) + step
  }

  lemma {:induction false} StrideIs(base: nat, k: nat, step: nat)
    ensures Stride(base, k, step) == base + k * step
  {
    if k > 0 {
      StrideIs(base, k - 1, step);
      Layout.MulSucc(k - 1, step);
    }
  }

  /** A channel offset inside the tensor: for `base < step`, channel `k < n` lies below
      `n * step`. */
  lemma StrideBelow(base: nat, k: nat, step: nat, n: nat)
    requires base < step && k < n
    ensures Stride(base, k, step) < n * step
  {
    StrideIs(base, k, step);
    Layout.MulSucc(k, step);
    Layout.MulMonotone(k + 1, n, step);
  }

  /** What `_DecodeBunch` works on for one scale: the channel-major box and score
      samples, the grid size, the number of box bins and of classes, both quantization
      pairs, the quantized score threshold and the grid-to-input scale. */
  datatype Grid = Grid(boxT: seq<real>, scoreT: seq<real>, height: nat, width: nat, bins: nat,
                       numClasses: nat, boxQuant: Quantization, scoreQuant: Quantization,
                       threshold: real, scale: real)
  {
    /** The number of cells, H * W. */
    function Total(): nat { height * width }

    /** Every sample the decoder reads lies inside its tensor: the score loop reads
        channel 0 of each cell even when there are no classes, so one class is needed. */
    predicate Readable()
    {
      numClasses >= 1 && bins * Total() <= |boxT| && numClasses * Total() <= |scoreT|
    }
  }

  /** The class loop after its first `m` classes: `(maxIndex, maxScore)`, starting from
      (0, the score of channel 0) and replaced only by a strictly greater score. */
  function Best(scoreT: seq<real>, cell: nat, total: nat, m: nat): (nat, real)
  {
    if m == 0 then (0, At(scoreT, cell))
    else
      var prev := Best(scoreT, cell, total, m - 1);
      var v := At(scoreT, Stride(cell, m - 1, total));
      if v > prev.1 then (m - 1, v) else prev
  }

  /** The class loop finds the maximum score of the cell and the lowest class holding it. */
  lemma {:induction false} BestIsFirstMaximum(scoreT: seq<real>, cell: nat, total: nat, m: nat)
    ensures var r := Best(scoreT, cell, total, m);
      && (if m == 0 then r.0 == 0 else r.0 < m)
      && r.1 == At(scoreT, Stride(cell, r.0, total))
      && (forall k: nat :: k < m ==> At(scoreT, Stride(cell, k, total)) <= r.1)
      && (forall k: nat :: k < r.0 ==> At(scoreT, Stride(cell, k, total)) < r.1)
  {
    if m > 0 {
      BestIsFirstMaximum(scoreT, cell, total, m - 1);
    }
  }

  /** The box of cell (i, j) from its edge distances (left, top, right, bottom), in grid
      units, scaled to input pixels: corners (j + 0.5 - l, i + 0.5 - t) and
      (j + 0.5 + r, i + 0.5 + b), stored as origin and extent. */
  function CellBox(e: seq<real>, i: nat, j: nat, scale: real): Rect
    requires |e| == 4
  {
    var x1 := (-e[0] + j as real + 0.5) * scale;
    var y1 := (-e[1] + i as real + 0.5) * scale;
    var x2 := (e[2] + j as real + 0.5) * scale;
    var y2 := (e[3] + i as real + 0.5) * scale;
    Rect(x1, y1, x2 - x1, y2 - y1)
  }

  /** The box extends `l` cells left and `r` cells right of the cell centre, `t` up and
      `b` down, with one scale on both axes; with non-negative distances and scale it
      contains the cell centre. */
  lemma CellBoxGeometry(e: seq<real>, i: nat, j: nat, scale: real)
    requires |e| == 4
    ensures var b := CellBox(e, i, j, scale);
      && b.x == (j as real + 0.5 - e[0]) * scale && b.y == (i as real + 0.5 - e[1]) * scale
      && b.width == (e[0] + e[2]) * scale && b.height == (e[1] + e[3]) * scale
      && b.x + b.width == (j as real + 0.5 + e[2]) * scale && b.y + b.height == (i as real + 0.5 + e[3]) * scale
      && (scale >= 0.0 && e[0] >= 0.0 && e[1] >= 0.0 && e[2] >= 0.0 && e[3] >= 0.0 ==>
            b.width >= 0.0 && b.height >= 0.0
            && b.x <= (j as real + 0.5) * scale <= b.x + b.width
            && b.y <= (i as real + 0.5) * scale <= b.y + b.height)
  {
    var c := j as real + 0.5;
    var d := i as real + 0.5;
    assert (e[2] + c) * scale - (-e[0] + c) * scale == (e[0] + e[2]) * scale;
    assert (e[3] + d) * scale - (-e[1] + d) * scale == (e[1] + e[3]) * scale;
    if scale >= 0.0 && e[0] >= 0.0 && e[1] >= 0.0 && e[2] >= 0.0 && e[3] >= 0.0 {
      assert (c - e[0]) * scale == c * scale - e[0] * scale;
      assert (c + e[2]) * scale == c * scale + e[2] * scale;
      assert (d - e[1]) * scale == d * scale - e[1] * scale;
      assert (d + e[3]) * scale == d * scale + e[3] * scale;
    }
  }

  /** The dequantized bins of one cell: channel k at `Stride(cell, k, total)`. */
  function Bins(g: Grid, cell: nat): (r: seq<real>)
    ensures |r| == g.bins
  {
    seq(g.bins, k requires 0 <= k < g.bins => g.boxQuant.Dequantize(At(g.boxT, Stride(cell, k, g.Total()))))
  }

  /** The four edge distances `Utils::DFL` decodes from `4 * len` bins. */
  function Edges(dfl: seq<real>, len: nat, exp: real -> real): (r: seq<real>)
    requires 4 * len <= |dfl|
    ensures |r| == 4
  {
    [DflEdge(dfl[..len], exp), DflEdge(dfl[len..2 * len], exp),
     DflEdge(dfl[2 * len..3 * len], exp), DflEdge(dfl[3 * len..4 * len], exp)]
  }

  /** The proposal of cell (i, j), if its best raw score passes the threshold. */
  function CellCandidate(g: Grid, exp: real -> real, i: nat, j: nat): Option<Candidate>
  {
    var cell := Stride(j, i, g.width);
    var best := Best(g.scoreT, cell, g.Total(), g.numClasses);
    if best.1 > g.threshold then
      Some(Candidate(CellBox(Edges(Bins(g, cell), g.bins / 4, exp), i, j, g.scale),
                     g.scoreQuant.Dequantize(best.1), best.0))
    else None
  }

  /** A cell proposes exactly when its best raw score is above the quantized threshold;
      the proposal carries the lowest class of maximum score, that score dequantized and
      the decoded box. With a positive scale its score is the largest dequantized class
      score of the cell. */
  lemma CellCandidateSpec(g: Grid, exp: real -> real, i: nat, j: nat)
    requires g.numClasses >= 1
    ensures var cell := Stride(j, i, g.width);
      var raw := Best(g.scoreT, cell, g.Total(), g.numClasses).1;
      && (CellCandidate(g, exp, i, j).Some? <==> raw > g.threshold)
      && (CellCandidate(g, exp, i, j).Some? ==>
            var c := CellCandidate(g, exp, i, j).value;
            && 0 <= c.id < g.numClasses
            && raw == At(g.scoreT, Stride(cell, c.id, g.Total()))
            && c.score == g.scoreQuant.Dequantize(raw)
            && (forall k: nat :: k < c.id ==> At(g.scoreT, Stride(cell, k, g.Total())) < raw)
            && (g.scoreQuant.scale > 0.0 ==> forall k: nat :: k < g.numClasses ==>
                  g.scoreQuant.Dequantize(At(g.scoreT, Stride(cell, k, g.Total()))) <= c.score))
  {
    var cell := Stride(j, i, g.width);
    var best := Best(g.scoreT, cell, g.Total(), g.numClasses);
    BestIsFirstMaximum(g.scoreT, cell, g.Total(), g.numClasses);
    var raw := best.1;
    var cc := CellCandidate(g, exp, i, j);
    assert cc.Some? <==> raw > g.threshold;
    if cc.Some? {
      assert cc.value.id == best.0 && cc.value.score == g.scoreQuant.Dequantize(raw);
      if g.scoreQuant.scale > 0.0 {
        forall k: nat | k < g.numClasses
          ensures g.scoreQuant.Dequantize(At(g.scoreT, Stride(cell, k, g.Total()))) <= cc.value.score
        {
          var v := At(g.scoreT, Stride(cell, k, g.Total()));
          if v < raw {
            DequantizeStrictlyIncreasing(g.scoreQuant, v, raw);
          } else {
            assert v == raw;
          }
        }
      }
    }
  }

  /** A proposal's class is one of the score tensor's classes. */
  lemma CellClassInRange(g: Grid, exp: real -> real, i: nat, j: nat)
    requires g.numClasses >= 1
    ensures CellCandidate(g, exp, i, j).Some? ==> 0 <= CellCandidate(g, exp, i, j).value.id < g.numClasses
  {
    BestIsFirstMaximum(g.scoreT, Stride(j, i, g.width), g.Total(), g.numClasses);
  }

  /** The threshold test on raw samples, against `Quantize<T>(scoreThres)`, is the test
      `Dequantize(maxScore) > scoreThres` on every grid of samples of the type, provided
      the pre-cast threshold is not negative for integer samples. */
  lemma CellThreshold(g: Grid, exp: real -> real, i: nat, j: nat, t: SampleType, thr: real)
    requires g.scoreQuant.scale > 0.0
    requires forall k :: 0 <= k < |g.scoreT| ==> IsSample(t, g.scoreT[k])
    requires Fits(t, Trunc(g.scoreQuant.PreCast(thr)))
    requires !t.F32? ==> g.scoreQuant.PreCast(thr) >= 0.0
    requires g.threshold == g.scoreQuant.Quantize(t, thr)
    ensures CellCandidate(g, exp, i, j).Some? <==>
      g.scoreQuant.Dequantize(Best(g.scoreT, Stride(j, i, g.width), g.Total(), g.numClasses).1) > thr
  {
    var cell := Stride(j, i, g.width);
    var r := Best(g.scoreT, cell, g.Total(), g.numClasses);
    BestIsFirstMaximum(g.scoreT, cell, g.Total(), g.numClasses);
    var k := Stride(cell, r.0, g.Total());
    assert IsSample(t, At(g.scoreT, k)) by {
      if !(0 <= k < |g.scoreT|) {
        assert Fits(t, 0);
      }
    }
    QuantizedThresholdAgrees(g.scoreQuant, t, thr, r.1);
  }

  /** The proposal of a cell as a list of zero or one elements. */
  function Proposals(c: Option<Candidate>): seq<Candidate>
  {
    match c
    case Some(x) => [x]
    case None => []
  }

  /** The cell decoder of a grid: cell (i, j) to its proposal, if any. */
  function Cells(g: Grid, exp: real -> real): (nat, nat) -> Option<Candidate>
  {
    (i: nat, j: nat) => CellCandidate(g, exp, i, j)
  }

  /** The proposals of cells (i, 0), ..., (i, n - 1) of a cell decoder, left to right. */
  function Row(f: (nat, nat) -> Option<Candidate>, i: nat, n: nat): seq<Candidate>
  {
    if n == 0 then [] else Row(f, i, n - 1) + Proposals(f(i, n - 1))
  }

  /** The proposals of rows 0, ..., m - 1 of `width` cells each, row after row. */
  function Rows(f: (nat, nat) -> Option<Candidate>, width: nat, m: nat): seq<Candidate>
  {
    if m == 0 then [] else Rows(f, width, m - 1) + Row(f, m - 1, width)
  }

  /** The proposals of a whole grid, in row-major cell order. */
  function GridCandidates(g: Grid, exp: real -> real): seq<Candidate>
  {
    Rows(Cells(g, exp), g.width, g.height)
  }

  lemma RowStep(f: (nat, nat) -> Option<Candidate>, i: nat, j: nat)
    ensures Row(f, i, j + 1) == Row(f, i, j) + Proposals(f(i, j))
  {
  }

  lemma RowsStep(f: (nat, nat) -> Option<Candidate>, width: nat, i: nat)
    ensures Rows(f, width, i + 1) == Rows(f, width, i) + Row(f, i, width)
  {
  }

  /** A proposal, if any, carries a class below `n`. */
  predicate ClassBelow(c: Option<Candidate>, n: int)
  {
    c.Some? ==> 0 <= c.value.id < n
  }

  /** A row proposes at most once per cell, each time a class the decoder allows. */
  lemma {:induction false} RowBound(f: (nat, nat) -> Option<Candidate>, i: nat, n: nat, classes: int)
    requires forall j: nat :: j < n ==> ClassBelow(f(i, j), classes)
    ensures |Row(f, i, n)| <= n
    ensures forall c :: c in Row(f, i, n) ==> 0 <= c.id < classes
  {
    if n > 0 {
      RowBound(f, i, n - 1, classes);
      assert ClassBelow(f(i, n - 1), classes);
    }
  }

  /** Rows propose at most once per cell, each time a class the decoder allows. */
  lemma {:induction false} RowsBound(f: (nat, nat) -> Option<Candidate>, width: nat, m: nat, classes: int)
    requires forall i: nat, j: nat :: i < m && j < width ==> ClassBelow(f(i, j), classes)
    ensures |Rows(f, width, m)| <= m * width
    ensures forall c :: c in Rows(f, width, m) ==> 0 <= c.id < classes
  {
    if m > 0 {
      RowsBound(f, width, m - 1, classes);
      RowBound(f, m - 1, width, classes);
      Layout.MulSucc(m - 1, width);
    }
  }

  /** A grid proposes at most once per cell, and always one of its classes. */
  lemma GridCandidatesBound(g: Grid, exp: real -> real)
    requires g.numClasses >= 1
    ensures |GridCandidates(g, exp)| <= g.height * g.width
    ensures forall c :: c in GridCandidates(g, exp) ==> 0 <= c.id < g.numClasses
  {
    forall i: nat, j: nat | i < g.height && j < g.width
      ensures ClassBelow(Cells(g, exp)(i, j), g.numClasses)
    {
      CellClassInRange(g, exp, i, j);
    }
    RowsBound(Cells(g, exp), g.width, g.height, g.numClasses);
  }

  // ----- from the runtime's tensors to a grid -----

  /** The samples the decoder reads for one tensor: the buffer itself, or, for a
      blocked native layout, the channel-major array `Utils::NC1HWC2ToNCHW` fills (its
      first C*H*W positions, the only ones read). */
  function View(data: seq<real>, native: TensorAttr, attr: TensorAttr): (r: seq<real>)
    requires |attr.dims| >= 4 && (native.fmt == NC1HWC2 ==> |native.dims| >= 5)
    ensures native.fmt == NC1HWC2 ==> |r| == Layout.Count(attr)
  {
    if native.fmt == NC1HWC2 then
      seq(Layout.Count(attr), k requires 0 <= k < Layout.Count(attr) => At(data, Layout.SrcOf(k, attr.Dim(2), attr.Dim(3), native.Dim(4))))
    else data
  }

  /** `inputSize.width / 1.f / gridW`; no cell is visited when the grid has no column. */
  function Scale(p: Params, gridW: nat): real
  {
    if gridW == 0 then 0.0 else p.inputSize.width as real / gridW as real
  }

  /** The shapes the decoder reads of group `g` (buffers 2g and 2g + 1): both tensors
      present with four-dimensional attributes (five for a blocked native layout), at
      least one class (the class loop reads channel 0 unconditionally), a non-zero score
      scale, and a threshold whose cast to the sample type is defined. */
  predicate Shaped(p: Params, t: SampleType, o: Outputs, g: nat)
  {
    && 2 * g + 1 < |o.mem| && 2 * g + 1 < |o.attr| && 2 * g + 1 < |o.native|
    && |o.attr[2 * g].dims| >= 4 && |o.attr[2 * g + 1].dims| >= 4
    && (o.native[2 * g].fmt == NC1HWC2 ==> |o.native[2 * g].dims| >= 5)
    && (o.native[2 * g + 1].fmt == NC1HWC2 ==> |o.native[2 * g + 1].dims| >= 5)
    && o.attr[2 * g + 1].Dim(1) >= 1
    && o.attr[2 * g + 1].quant.scale != 0.0
    && Fits(t, Trunc(o.attr[2 * g + 1].quant.PreCast(p.scoreThres)))
  }

  /** Group `g` can be decoded: shaped as above, each blocked tensor convertible into a
      buffer of its output's size, and every sample the decoder reads present. */
  predicate Decodable(p: Params, t: SampleType, o: Outputs, g: nat)
  {
    && Shaped(p, t, o, g)
    && (o.native[2 * g].fmt == NC1HWC2 ==>
          Layout.Convertible(o.native[2 * g], o.attr[2 * g], |o.mem[2 * g].data|, o.mem[2 * g].size))
    && (o.native[2 * g + 1].fmt == NC1HWC2 ==>
          Layout.Convertible(o.native[2 * g + 1], o.attr[2 * g + 1], |o.mem[2 * g + 1].data|, o.mem[2 * g + 1].size))
    && GridOf(p, t, o, g).Readable()
  }

  /** The grid `_DecodeBunch<T>` builds from buffers 2g (boxes) and 2g + 1 (scores): the
      grid size and bin count from the box shape, the class count from the score shape,
      the score threshold quantized with the score tensor's pair. */
  function GridOf(p: Params, t: SampleType, o: Outputs, g: nat): (r: Grid)
    requires Shaped(p, t, o, g)
    ensures r.numClasses == o.attr[2 * g + 1].Dim(1) >= 1
  {
    var boxAttr := o.attr[2 * g];
    var scoreAttr := o.attr[2 * g + 1];
    Grid(View(o.mem[2 * g].data, o.native[2 * g], boxAttr),
         View(o.mem[2 * g + 1].data, o.native[2 * g + 1], scoreAttr),
         boxAttr.Dim(2), boxAttr.Dim(3), boxAttr.Dim(1), scoreAttr.Dim(1),
         boxAttr.quant, scoreAttr.quant,
         scoreAttr.quant.Quantize(t, p.scoreThres),
         Scale(p, boxAttr.Dim(3)))
  }

  /** The three parallel vectors `boxes`, `scores`, `classes` of a list of proposals. */
  function BoxesOf(cs: seq<Candidate>): seq<Rect> { seq(|cs|, k requires 0 <= k < |cs| => cs[k].box) }
  function ScoresOf(cs: seq<Candidate>): seq<real> { seq(|cs|, k requires 0 <= k < |cs| => cs[k].score) }
  function IdsOf(cs: seq<Candidate>): seq<int> { seq(|cs|, k requires 0 <= k < |cs| => cs[k].id) }

  /** Appending a list of proposals appends to each of the three vectors. */
  lemma AppendProjections(cs: seq<Candidate>, ds: seq<Candidate>)
    ensures BoxesOf(cs + ds) == BoxesOf(cs) + BoxesOf(ds)
    ensures ScoresOf(cs + ds) == ScoresOf(cs) + ScoresOf(ds)
    ensures IdsOf(cs + ds) == IdsOf(cs) + IdsOf(ds)
  {
  }

  /** Pushing one cell's proposal onto the three vectors extends their projections. */
  lemma AppendCell(bs: seq<Rect>, ss: seq<real>, ks: seq<int>, done: seq<Candidate>, c: Option<Candidate>,
                   boxes: seq<Rect>, scores: seq<real>, classes: seq<int>)
    requires boxes == bs + BoxesOf(done) && scores == ss + ScoresOf(done) && classes == ks + IdsOf(done)
    ensures (if c.Some? then boxes + [c.value.box] else boxes) == bs + BoxesOf(done + Proposals(c))
    ensures (if c.Some? then scores + [c.value.score] else scores) == ss + ScoresOf(done + Proposals(c))
    ensures (if c.Some? then classes + [c.value.id] else classes) == ks + IdsOf(done + Proposals(c))
  {
    AppendProjections(done, Proposals(c));
  }

  /** Appending the projections of more proposals extends the projections of all. */
  lemma AppendAll(bs: seq<Rect>, ss: seq<real>, ks: seq<int>, done: seq<Candidate>, more: seq<Candidate>,
                  boxes: seq<Rect>, scores: seq<real>, classes: seq<int>,
                  boxes': seq<Rect>, scores': seq<real>, classes': seq<int>)
    requires boxes == bs + BoxesOf(done) && scores == ss + ScoresOf(done) && classes == ks + IdsOf(done)
    requires boxes' == boxes + BoxesOf(more) && scores' == scores + ScoresOf(more) && classes' == classes + IdsOf(more)
    ensures boxes' == bs + BoxesOf(done + more)
    ensures scores' == ss + ScoresOf(done + more)
    ensures classes' == ks + IdsOf(done + more)
  {
    AppendProjections(done, more);
  }

  // ----- the decoder -----

  /** The class loop of one cell. */
  method BestClass(scoreT: seq<real>, cell: nat, total: nat, cls: nat) returns (maxIndex: nat, maxScore: real)
    requires cell < total && total <= |scoreT| && cls * total <= |scoreT|
    ensures (maxIndex, maxScore) == Best(scoreT, cell, total, cls)
  {
    maxIndex := 0;
    maxScore := scoreT[cell];
    var k: nat := 0;
    var off := cell;
    while k < cls
      invariant k <= cls && off == Stride(cell, k, total)
      invariant (maxIndex, maxScore) == Best(scoreT, cell, total, k)
    {
      StrideBelow(cell, k, total, cls);
      if scoreT[off] > maxScore {
        maxIndex := k;
        maxScore := scoreT[off];
      }
      k := k + 1;
      off := off + total;
    }
  }

  /** Bin `k` of a cell: its box channel `k`, dequantized. */
  function BinAt(boxT: seq<real>, cell: nat, total: nat, q: Quantization, k: nat): real
  {
    q.Dequantize(At(boxT, Stride(cell, k, total)))
  }

  /** The bin loop of one cell: `dfl[k] = boxQuant.Dequantize(boxTensor[off])`. */
  method CellBins(boxT: seq<real>, cell: nat, total: nat, bins: nat, q: Quantization) returns (dfl: array<real>)
    requires cell < total && bins * total <= |boxT|
    ensures fresh(dfl)
    ensures dfl[..] == seq(bins, k requires 0 <= k < bins => q.Dequantize(At(boxT, Stride(cell, k, total))))
  {
    dfl := new real[bins];
    var k: nat := 0;
    var off := cell;
    while k < bins
      invariant k <= bins && off == Stride(cell, k, total)
      invariant forall n: nat :: n < k ==> dfl[n] == BinAt(boxT, cell, total, q, n)
    {
      StrideBelow(cell, k, total, bins);
      dfl[k] := q.Dequantize(boxT[off]);
      assert dfl[k] == BinAt(boxT, cell, total, q, k);
      k := k + 1;
      off := off + total;
    }
  }

  /** The proposal of a cell, from the pieces the decoder computes for it. */
  lemma CellCandidateFrom(g: Grid, exp: real -> real, i: nat, j: nat, cell: nat, best: (nat, real),
                          e: seq<real>, c: Option<Candidate>)
    requires cell == Stride(j, i, g.width) && best == Best(g.scoreT, cell, g.Total(), g.numClasses)
    requires e == Edges(Bins(g, cell), g.bins / 4, exp)
    requires c == if best.1 > g.threshold
      then Some(Candidate(CellBox(e, i, j, g.scale), g.scoreQuant.Dequantize(best.1), best.0))
      else None
    ensures c == CellCandidate(g, exp, i, j)
  {
  }

  /** The body of the cell loop: the proposal of cell (i, j), if any. */
  method DecodeCell(g: Grid, exp: real -> real, i: nat, j: nat) returns (c: Option<Candidate>)
    requires g.Readable() && i < g.height && j < g.width && Positive(exp)
    ensures c == CellCandidate(g, exp, i, j)
  {
    var cell := i * g.width + j;
    StrideIs(j, i, g.width);
    Layout.SpatialBelow(i, j, g.height, g.width);
    Layout.MulMonotone(1, g.numClasses, g.Total());
    var maxIndex, maxScore := BestClass(g.scoreT, cell, g.Total(), g.numClasses);
    ghost var e := Edges(Bins(g, cell), g.bins / 4, exp);
    c := None;
    if maxScore > g.threshold {
      var box := new real[4];
      var dfl := CellBins(g.boxT, cell, g.Total(), g.bins, g.boxQuant);
      assert dfl[..] == Bins(g, cell);
      Dfl(dfl[..], g.bins / 4, box, exp);
      var edges := [box[0], box[1], box[2], box[3]];
      assert edges == e;
      c := Some(Candidate(CellBox(edges, i, j, g.scale), g.scoreQuant.Dequantize(maxScore), maxIndex));
    }
    CellCandidateFrom(g, exp, i, j, cell, (maxIndex, maxScore), e, c);
  }

  /** The inner cell loop of `_DecodeBunch`: the proposals of row i, left to right,
      appended to the three vectors. */
  method DecodeRow(g: Grid, exp: real -> real, i: nat, boxes: seq<Rect>, scores: seq<real>, classes: seq<int>)
    returns (boxes': seq<Rect>, scores': seq<real>, classes': seq<int>)
    requires g.Readable() && i < g.height && Positive(exp)
    ensures boxes' == boxes + BoxesOf(Row(Cells(g, exp), i, g.width))
    ensures scores' == scores + ScoresOf(Row(Cells(g, exp), i, g.width))
    ensures classes' == classes + IdsOf(Row(Cells(g, exp), i, g.width))
  {
    boxes', scores', classes' := boxes, scores, classes;
    var j: nat := 0;
    while j < g.width
      invariant j <= g.width
      invariant boxes' == boxes + BoxesOf(Row(Cells(g, exp), i, j))
      invariant scores' == scores + ScoresOf(Row(Cells(g, exp), i, j))
      invariant classes' == classes + IdsOf(Row(Cells(g, exp), i, j))
    {
      var c := DecodeCell(g, exp, i, j);
      RowStep(Cells(g, exp), i, j);
      assert Cells(g, exp)(i, j) == c;
      AppendCell(boxes, scores, classes, Row(Cells(g, exp), i, j), c, boxes', scores', classes');
      if c.Some? {
        boxes' := boxes' + [c.value.box];
        scores' := scores' + [c.value.score];
        classes' := classes' + [c.value.id];
      }
      j := j + 1;
    }
  }

  /** The cell loops of `_DecodeBunch` over a grid: each cell's proposal, row after row,
      appended to the three vectors. */
  method DecodeGrid(g: Grid, exp: real -> real, boxes: seq<Rect>, scores: seq<real>, classes: seq<int>)
    returns (boxes': seq<Rect>, scores': seq<real>, classes': seq<int>)
    requires g.Readable() && Positive(exp)
    ensures boxes' == boxes + BoxesOf(GridCandidates(g, exp))
    ensures scores' == scores + ScoresOf(GridCandidates(g, exp))
    ensures classes' == classes + IdsOf(GridCandidates(g, exp))
  {
    boxes', scores', classes' := boxes, scores, classes;
    var i: nat := 0;
    while i < g.height
      invariant i <= g.height
      invariant boxes' == boxes + BoxesOf(Rows(Cells(g, exp), g.width, i))
      invariant scores' == scores + ScoresOf(Rows(Cells(g, exp), g.width, i))
      invariant classes' == classes + IdsOf(Rows(Cells(g, exp), g.width, i))
    {
      var b, s, k := DecodeRow(g, exp, i, boxes', scores', classes');
      AppendAll(boxes, scores, classes, Rows(Cells(g, exp), g.width, i), Row(Cells(g, exp), i, g.width),
                boxes', scores', classes', b, s, k);
      RowsStep(Cells(g, exp), g.width, i);
      boxes', scores', classes' := b, s, k;
      i := i + 1;
    }
  }

  /** The tensor a decoding pass reads: the buffer, or a fresh array of the buffer's
      size that `NC1HWC2ToNCHW` fills from it. */
  method Normalize(m: Output, native: TensorAttr, attr: TensorAttr) returns (s: seq<real>)
    requires |attr.dims| >= 4
    requires native.fmt == NC1HWC2 ==> Layout.Convertible(native, attr, |m.data|, m.size)
    ensures s == View(m.data, native, attr)
  {
    s := m.data;
    if native.fmt == NC1HWC2 {
      var converted := new real[m.size];
      Layout.NC1HWC2ToNCHW(m.data, converted, native, attr);
      s := converted[..Layout.Count(attr)];
    }
  }

  /** `Yolo::_DecodeBunch<T>` on group `g`: the proposals of its grid appended, in
      row-major cell order, to the three vectors. */
  method DecodeBunch(p: Params, t: SampleType, o: Outputs, g: nat, exp: real -> real,
                     boxes: seq<Rect>, scores: seq<real>, classes: seq<int>)
    returns (boxes': seq<Rect>, scores': seq<real>, classes': seq<int>)
    requires Decodable(p, t, o, g) && Positive(exp)
    ensures var cs := GridCandidates(GridOf(p, t, o, g), exp);
      boxes' == boxes + BoxesOf(cs) && scores' == scores + ScoresOf(cs) && classes' == classes + IdsOf(cs)
  {
    var boxAttr := o.attr[2 * g];
    var scoreAttr := o.attr[2 * g + 1];
    var scoreThreshold := scoreAttr.quant.Quantize(t, p.scoreThres);
    var boxT := Normalize(o.mem[2 * g], o.native[2 * g], boxAttr);
    var scoreT := Normalize(o.mem[2 * g + 1], o.native[2 * g + 1], scoreAttr);
    var grid := Grid(boxT, scoreT, boxAttr.Dim(2), boxAttr.Dim(3), boxAttr.Dim(1), scoreAttr.Dim(1),
                     boxAttr.quant, scoreAttr.quant, scoreThreshold, Scale(p, boxAttr.Dim(3)));
    assert grid == GridOf(p, t, o, g);
    boxes', scores', classes' := DecodeGrid(grid, exp, boxes, scores, classes);
  }

  // ----- all scales, then suppression -----

  /** The proposals of groups 0, ..., n - 1, group after group. */
  function Candidates(p: Params, t: SampleType, o: Outputs, exp: real -> real, n: nat): seq<Candidate>
    requires forall g :: 0 <= g < n ==> Shaped(p, t, o, g)
  {
    if n == 0 then []
    else Candidates(p, t, o, exp, n - 1) + GridCandidates(GridOf(p, t, o, n - 1), exp)
  }

  /** What the result loop builds: one detection per kept index, in the order NMS
      returns them, from the three vectors at that index. */
  function Package(keep: seq<int>, boxes: seq<Rect>, scores: seq<real>, classes: seq<int>): (r: seq<Detection>)
    requires forall a :: 0 <= a < |keep| ==> 0 <= keep[a] < |boxes| && keep[a] < |scores| && keep[a] < |classes|
    ensures |r| == |keep|
  {
    seq(|keep|, a requires 0 <= a < |keep| => Detection(classes[keep[a]], boxes[keep[a]], scores[keep[a]]))
  }

  /** `result` packages the proposals at the distinct indices `keep`, in that order,
      and every proposal whose index is not kept overlaps, above the threshold, a
      detection scored at least as high. */
  ghost predicate PackagedFrom(cs: seq<Candidate>, thr: real, result: seq<Detection>, keep: seq<int>)
  {
    && |keep| == |result| && Distinct(keep)
    && (forall a :: 0 <= a < |keep| ==>
          0 <= keep[a] < |cs| && result[a] == Detection(cs[keep[a]].id, cs[keep[a]].box, cs[keep[a]].score))
    && (forall d :: 0 <= d < |cs| && d !in keep ==>
          exists a :: 0 <= a < |result| && result[a].score >= cs[d].score && IoU(result[a].rect, cs[d].box) > thr)
  }

  /** What `Postprocess` promises about its detections, given the proposals `cs`: they
      package distinct proposals, and every proposal left out overlaps, above the
      threshold, a detection scored at least as high; they come by non-increasing score
      and pairwise overlap by IoU at most the NMS threshold; there are none without
      proposals, otherwise the best proposal comes first. */
  ghost predicate Detections(cs: seq<Candidate>, thr: real, result: seq<Detection>)
  {
    && (exists keep :: PackagedFrom(cs, thr, result, keep))
    && (forall a, b :: 0 <= a < b < |result| ==> result[a].score >= result[b].score)
    && (forall a, b :: 0 <= a < b < |result| ==> IoU(result[a].rect, result[b].rect) <= thr)
    && (|cs| == 0 ==> result == [])
    && (|cs| > 0 ==> |result| > 0 && forall d :: 0 <= d < |cs| ==> result[0].score >= cs[d].score)
  }

  /** `keep` is what the greedy pass of `Utils::NMS` returns over the proposals `cs`
      for `order`, a ranking the sort may produce; it then keeps every promise of NMS. */
  ghost predicate NmsKeeps(cs: seq<Candidate>, thr: real, order: seq<int>, keep: seq<int>)
  {
    && Ranked(Greedy(order, BoxesOf(cs), thr), ScoresOf(cs))
    && keep == Greedy(order, BoxesOf(cs), thr).Survivors(|order|)
    && NmsResult(BoxesOf(cs), ScoresOf(cs), thr, keep)
  }

  /** Packaging the indices NMS keeps gives detections with every property above. */
  lemma PackageDetections(cs: seq<Candidate>, thr: real, keep: seq<int>)
    requires NmsResult(BoxesOf(cs), ScoresOf(cs), thr, keep)
    ensures Detections(cs, thr, Package(keep, BoxesOf(cs), ScoresOf(cs), IdsOf(cs)))
  {
    var result := Package(keep, BoxesOf(cs), ScoresOf(cs), IdsOf(cs));
    PackageEntries(cs, thr, keep, result);
    PackageOrdered(cs, thr, keep, result);
    PackageCovers(cs, thr, keep, result);
    assert PackagedFrom(cs, thr, result, keep);
  }

  /** The same, for vectors that hold the projections of `cs`. */
  lemma PackageProjected(cs: seq<Candidate>, thr: real, keep: seq<int>,
                         boxes: seq<Rect>, scores: seq<real>, classes: seq<int>)
    requires Projected(cs, boxes, scores, classes)
    requires NmsResult(boxes, scores, thr, keep)
    ensures Detections(cs, thr, Package(keep, boxes, scores, classes))
  {
    PackageDetections(cs, thr, keep);
  }

  lemma PackageEntries(cs: seq<Candidate>, thr: real, keep: seq<int>, result: seq<Detection>)
    requires NmsResult(BoxesOf(cs), ScoresOf(cs), thr, keep)
    requires result == Package(keep, BoxesOf(cs), ScoresOf(cs), IdsOf(cs))
    ensures |keep| == |result| && Distinct(keep)
    ensures forall a :: 0 <= a < |keep| ==>
      0 <= keep[a] < |cs| && result[a] == Detection(cs[keep[a]].id, cs[keep[a]].box, cs[keep[a]].score)
  {
  }

  lemma PackageOrdered(cs: seq<Candidate>, thr: real, keep: seq<int>, result: seq<Detection>)
    requires NmsResult(BoxesOf(cs), ScoresOf(cs), thr, keep)
    requires result == Package(keep, BoxesOf(cs), ScoresOf(cs), IdsOf(cs))
    ensures forall a, b :: 0 <= a < b < |result| ==> result[a].score >= result[b].score
    ensures forall a, b :: 0 <= a < b < |result| ==> IoU(result[a].rect, result[b].rect) <= thr
    ensures |cs| == 0 ==> result == []
    ensures |cs| > 0 ==> |result| > 0 && forall d :: 0 <= d < |cs| ==> result[0].score >= cs[d].score
  {
    if |cs| > 0 {
      forall d | 0 <= d < |cs|
        ensures result[0].score >= cs[d].score
      {
        assert ScoresOf(cs)[d] == cs[d].score;
      }
    }
  }

  lemma PackageCovers(cs: seq<Candidate>, thr: real, keep: seq<int>, result: seq<Detection>)
    requires NmsResult(BoxesOf(cs), ScoresOf(cs), thr, keep)
    requires result == Package(keep, BoxesOf(cs), ScoresOf(cs), IdsOf(cs))
    ensures forall d :: 0 <= d < |cs| && d !in keep ==>
      exists a :: 0 <= a < |result| && result[a].score >= cs[d].score && IoU(result[a].rect, cs[d].box) > thr
  {
    forall d | 0 <= d < |cs| && d !in keep
      ensures exists a :: 0 <= a < |result| && result[a].score >= cs[d].score && IoU(result[a].rect, cs[d].box) > thr
    {
      assert ScoresOf(cs)[d] == cs[d].score && BoxesOf(cs)[d] == cs[d].box;
      var a :| 0 <= a < |keep| && ScoresOf(cs)[keep[a]] >= ScoresOf(cs)[d]
        && IoU(BoxesOf(cs)[keep[a]], BoxesOf(cs)[d]) > thr;
      assert result[a].score >= cs[d].score && IoU(result[a].rect, cs[d].box) > thr;
    }
  }

  /** The proposals of groups 0, ..., n - 1 when tensor 0 has a supported element
      type, and none otherwise. */
  function Proposed(p: Params, sample: Option<SampleType>, o: Outputs, exp: real -> real, n: nat): seq<Candidate>
    requires sample.Some? ==> forall g :: 0 <= g < n ==> Shaped(p, sample.value, o, g)
  {
    match sample
    case None => []
    case Some(t) => Candidates(p, t, o, exp, n)
  }

  /** Without a supported element type, or without a group, nothing is proposed. */
  lemma NoProposals(p: Params, sample: Option<SampleType>, o: Outputs, exp: real -> real, n: nat)
    requires sample.Some? ==> forall g :: 0 <= g < n ==> Shaped(p, sample.value, o, g)
    requires sample.None? || n == 0
    ensures Proposed(p, sample, o, exp, n) == []
  {
  }

  lemma ProposedStep(p: Params, sample: Option<SampleType>, o: Outputs, exp: real -> real, i: nat)
    requires sample.Some? && forall g :: 0 <= g < i + 1 ==> Shaped(p, sample.value, o, g)
    ensures Proposed(p, sample, o, exp, i + 1) ==
      Proposed(p, sample, o, exp, i) + GridCandidates(GridOf(p, sample.value, o, i), exp)
  {
  }

  /** The three vectors hold the projections of the proposals `cs`. */
  predicate Projected(cs: seq<Candidate>, boxes: seq<Rect>, scores: seq<real>, classes: seq<int>)
  {
    boxes == BoxesOf(cs) && scores == ScoresOf(cs) && classes == IdsOf(cs)
  }

  /** Extending a list of proposals extends its three projections. */
  lemma Extend(done: seq<Candidate>, more: seq<Candidate>, boxes: seq<Rect>, scores: seq<real>, classes: seq<int>,
               boxes': seq<Rect>, scores': seq<real>, classes': seq<int>)
    requires Projected(done, boxes, scores, classes)
    requires boxes' == boxes + BoxesOf(more) && scores' == scores + ScoresOf(more) && classes' == classes + IdsOf(more)
    ensures Projected(done + more, boxes', scores', classes')
  {
    AppendProjections(done, more);
  }

  /** One pass of the scale loop: group i decoded with the type of tensor 0, if that
      type is one the decoder handles, its proposals appended to the three vectors. */
  method DecodeNext(p: Params, sample: Option<SampleType>, o: Outputs, i: nat, exp: real -> real,
                    boxes: seq<Rect>, scores: seq<real>, classes: seq<int>)
    returns (next: nat, boxes': seq<Rect>, scores': seq<real>, classes': seq<int>)
    requires sample.Some? ==>
      (forall g :: 0 <= g < i ==> Shaped(p, sample.value, o, g)) && Decodable(p, sample.value, o, i)
    requires Positive(exp)
    requires Projected(Proposed(p, sample, o, exp, i), boxes, scores, classes)
    ensures next == i + 1
    ensures sample.Some? ==> forall g :: 0 <= g < next ==> Shaped(p, sample.value, o, g)
    ensures Projected(Proposed(p, sample, o, exp, next), boxes', scores', classes')
  {
    next := i + 1;
    match sample
    case None =>
      boxes', scores', classes' := boxes, scores, classes;
    case Some(t) =>
      ShapedUpTo(p, t, o, i);
      boxes', scores', classes' := DecodeBunch(p, t, o, i, exp, boxes, scores, classes);
      ProposedStep(p, sample, o, exp, i);
      Extend(Proposed(p, sample, o, exp, i), GridCandidates(GridOf(p, t, o, i), exp),
             boxes, scores, classes, boxes', scores', classes');
  }

  lemma ShapedUpTo(p: Params, t: SampleType, o: Outputs, i: nat)
    requires forall g :: 0 <= g < i ==> Shaped(p, t, o, g)
    requires Shaped(p, t, o, i)
    ensures forall g :: 0 <= g < i + 1 ==> Shaped(p, t, o, g)
  {
  }

  /** The scale loop of `Postprocess`: groups 0, ..., bunch - 1 in turn. */
  method DecodeAll(p: Params, sample: Option<SampleType>, o: Outputs, bunch: nat, exp: real -> real)
    returns (boxes: seq<Rect>, scores: seq<real>, classes: seq<int>)
    requires sample.Some? ==> forall g :: 0 <= g < bunch ==> Decodable(p, sample.value, o, g)
    requires Positive(exp)
    ensures sample.Some? ==> forall g :: 0 <= g < bunch ==> Shaped(p, sample.value, o, g)
    ensures Projected(Proposed(p, sample, o, exp, bunch), boxes, scores, classes)
  {
    boxes, scores, classes := [], [], [];
    var i: nat := 0;
    assert Proposed(p, sample, o, exp, 0) == [];
    while i < bunch
      invariant i <= bunch
      invariant sample.Some? ==> forall g :: 0 <= g < i ==> Shaped(p, sample.value, o, g)
      invariant Projected(Proposed(p, sample, o, exp, i), boxes, scores, classes)
    {
      assert sample.Some? ==> Decodable(p, sample.value, o, i);
      i, boxes, scores, classes := DecodeNext(p, sample, o, i, exp, boxes, scores, classes);
    }
  }

  lemma PackageStep(keep: seq<int>, n: nat, boxes: seq<Rect>, scores: seq<real>, classes: seq<int>)
    requires n < |keep|
    requires forall a :: 0 <= a < |keep| ==> 0 <= keep[a] < |boxes| && keep[a] < |scores| && keep[a] < |classes|
    ensures Package(keep[..n + 1], boxes, scores, classes) ==
      Package(keep[..n], boxes, scores, classes) + [Detection(classes[keep[n]], boxes[keep[n]], scores[keep[n]])]
  {
  }

  /** The result loop of `Postprocess`: one detection per kept index, in order. */
  method Collect(keep: seq<int>, boxes: seq<Rect>, scores: seq<real>, classes: seq<int>) returns (result: seq<Detection>)
    requires forall a :: 0 <= a < |keep| ==> 0 <= keep[a] < |boxes| && keep[a] < |scores| && keep[a] < |classes|
    ensures result == Package(keep, boxes, scores, classes)
  {
    result := [];
    var n := 0;
    while n < |keep|
      invariant n <= |keep|
      invariant result == Package(keep[..n], boxes, scores, classes)
    {
      PackageStep(keep, n, boxes, scores, classes);
      result := result + [Detection(classes[keep[n]], boxes[keep[n]], scores[keep[n]])];
      n := n + 1;
    }
    assert keep[..n] == keep;
  }

  /** NMS over the proposals `cs` the three vectors hold, and the result loop: the kept
      indices packaged as detections in the order NMS returns them. */
  method Report(ghost cs: seq<Candidate>, thr: real, boxes: seq<Rect>, scores: seq<real>, classes: seq<int>)
    returns (result: seq<Detection>, ghost order: seq<int>, keep: seq<int>)
    requires Projected(cs, boxes, scores, classes)
    ensures NmsKeeps(cs, thr, order, keep)
    ensures result == Package(keep, BoxesOf(cs), ScoresOf(cs), IdsOf(cs))
  {
    keep, order := Nms(boxes, scores, thr);
    result := Collect(keep, boxes, scores, classes);
  }

  /** `Yolo::Postprocess`: every group is decoded, with the element type of tensor 0,
      into the three vectors; NMS runs over all of them; the kept indices are packaged
      as detections in the order NMS returns them. An unsupported element type, or
      fewer than two tensors, gives no detection. */
  method Postprocess(p: Params, o: Outputs, num: nat, exp: real -> real)
    returns (result: seq<Detection>, ghost order: seq<int>, keep: seq<int>)
    requires |o.attr| > 0 && Positive(exp)
    requires SampleTypeOf(o.attr[0].dtype).Some? ==>
      forall g :: 0 <= g < num / 2 ==> Decodable(p, SampleTypeOf(o.attr[0].dtype).value, o, g)
    ensures SampleTypeOf(o.attr[0].dtype).Some? ==>
      forall g :: 0 <= g < num / 2 ==> Shaped(p, SampleTypeOf(o.attr[0].dtype).value, o, g)
    ensures var cs := Proposed(p, SampleTypeOf(o.attr[0].dtype), o, exp, num / 2);
      NmsKeeps(cs, p.nmsThres, order, keep) && result == Package(keep, BoxesOf(cs), ScoresOf(cs), IdsOf(cs))
    ensures Detections(Proposed(p, SampleTypeOf(o.attr[0].dtype), o, exp, num / 2), p.nmsThres, result)
    ensures SampleTypeOf(o.attr[0].dtype).None? || num < 2 ==> result == []
  {
    var boxes, scores, classes := DecodeAll(p, SampleTypeOf(o.attr[0].dtype), o, num / 2, exp);
    result, order, keep := Report(Proposed(p, SampleTypeOf(o.attr[0].dtype), o, exp, num / 2), p.nmsThres, boxes, scores, classes);
    PackageDetections(Proposed(p, SampleTypeOf(o.attr[0].dtype), o, exp, num / 2), p.nmsThres, keep);
    if SampleTypeOf(o.attr[0].dtype).None? || num < 2 {
      NoProposals(p, SampleTypeOf(o.attr[0].dtype), o, exp, num / 2);
    }
  }
}
