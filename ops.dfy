/** The box utilities of the detector: intersection over union with the inclusive
    "+1" pixel convention, the distribution-focal-loss (DFL) box decoder, the affine
    transform back to the source image, and greedy non-maximum suppression. */
module Ops {
  import opened Sorting
  import Layout

  // ----- rectangles and IoU -----

  /** `Rect2f`: top-left corner and extent. */
  datatype Rect = Rect(x: real, y: real, width: real, height: real)

  /** `std::fmin` on values that are not NaN. */
  function Min(a: real, b: real): real { if a <= b then a else b }

  /** `std::fmax` on values that are not NaN. */
  function Max(a: real, b: real): real { if a >= b then a else b }

  /** Length of the overlap of the inclusive ranges [lo1, hi1] and [lo2, hi2], counted
      in pixels (hence the +1), and never negative. */
  function Overlap(lo1: real, hi1: real, lo2: real, hi2: real): (r: real)
    ensures r >= 0.0
  {
    Max(0.0, Min(hi1, hi2) - Max(lo1, lo2) + 1.0)
  }

  lemma OverlapSymmetric(lo1: real, hi1: real, lo2: real, hi2: real)
    ensures Overlap(lo1, hi1, lo2, hi2) == Overlap(lo2, hi2, lo1, hi1)
  {
    assert Min(hi1, hi2) == Min(hi2, hi1) && Max(lo1, lo2) == Max(lo2, lo1);
  }

  /** Area of a box under the inclusive convention. */
  function InclusiveArea(b: Rect): real
  {
    (b.x + b.width - b.x + 1.0) * (b.y + b.height - b.y + 1.0)
  }

  /** The intersection term `i` of `Utils::IoU`. */
  function Intersection(b1: Rect, b2: Rect): real
  {
    Overlap(b1.x, b1.x + b1.width, b2.x, b2.x + b2.width) * Overlap(b1.y, b1.y + b1.height, b2.y, b2.y + b2.height)
  }

  /** The union term `u` of `Utils::IoU`. */
  function Union(b1: Rect, b2: Rect): real
  {
    InclusiveArea(b1) + InclusiveArea(b2) - Intersection(b1, b2)
  }

  /** `Utils::IoU`: intersection over union, 0 when the union term is not positive. */
  function IoU(b1: Rect, b2: Rect): (r: real)
    ensures r >= 0.0
  {
    var u := Union(b1, b2);
    if u <= 0.0 then 0.0 else Intersection(b1, b2) / u
  }

  /** IoU does not depend on the order of its arguments. */
  lemma IoUSymmetric(b1: Rect, b2: Rect)
    ensures IoU(b1, b2) == IoU(b2, b1)
  {
    OverlapSymmetric(b1.x, b1.x + b1.width, b2.x, b2.x + b2.width);
    OverlapSymmetric(b1.y, b1.y + b1.height, b2.y, b2.y + b2.height);
    assert Intersection(b1, b2) == Intersection(b2, b1);
    assert Union(b1, b2) == Union(b2, b1);
  }

  lemma ProductMonotone(a: real, b: real, c: real, d: real)
    requires 0.0 <= a <= c && 0.0 <= b <= d
    ensures a * b <= c * d
  {
    assert a * b <= c * b;
    assert c * b <= c * d;
  }

  /** An overlap of inclusive ranges is at most the length of either range. */
  lemma OverlapBound(lo1: real, hi1: real, lo2: real, hi2: real)
    requires lo1 <= hi1 && lo2 <= hi2
    ensures Overlap(lo1, hi1, lo2, hi2) <= hi1 - lo1 + 1.0
    ensures Overlap(lo1, hi1, lo2, hi2) <= hi2 - lo2 + 1.0
  {
  }

  /** The intersection term is the product of the two overlaps. */
  lemma IntersectionIsProduct(b1: Rect, b2: Rect, w: real, h: real)
    requires w == Overlap(b1.x, b1.x + b1.width, b2.x, b2.x + b2.width)
    requires h == Overlap(b1.y, b1.y + b1.height, b2.y, b2.y + b2.height)
    ensures Intersection(b1, b2) == w * h
  {
  }

  /** For boxes of non-negative extent the intersection term `i` is at most either box's
      (width + 1) * (height + 1), which is at least one pixel. */
  lemma IntersectionBound(b1: Rect, b2: Rect, i: real)
    requires b1.width >= 0.0 && b1.height >= 0.0 && b2.width >= 0.0 && b2.height >= 0.0
    requires i == Intersection(b1, b2)
    ensures 0.0 <= i <= (b1.width + 1.0) * (b1.height + 1.0)
    ensures i <= (b2.width + 1.0) * (b2.height + 1.0)
    ensures (b1.width + 1.0) * (b1.height + 1.0) >= 1.0
  {
    var w := Overlap(b1.x, b1.x + b1.width, b2.x, b2.x + b2.width);
    var h := Overlap(b1.y, b1.y + b1.height, b2.y, b2.y + b2.height);
    IntersectionIsProduct(b1, b2, w, h);
    assert i == w * h;
    OverlapBound(b1.x, b1.x + b1.width, b2.x, b2.x + b2.width);
    OverlapBound(b1.y, b1.y + b1.height, b2.y, b2.y + b2.height);
    assert 0.0 <= w <= b1.width + 1.0 && w <= b2.width + 1.0;
    assert 0.0 <= h <= b1.height + 1.0 && h <= b2.height + 1.0;
    ProductBounds(i, w, h, b1.width, b1.height, b2.width, b2.height);
  }

  /** `i = w * h` with `0 <= w <= wd1 + 1, wd2 + 1` and `0 <= h <= ht1 + 1, ht2 + 1`. */
  lemma ProductBounds(i: real, w: real, h: real, wd1: real, ht1: real, wd2: real, ht2: real)
    requires i == w * h && wd1 >= 0.0 && ht1 >= 0.0
    requires 0.0 <= w <= wd1 + 1.0 && w <= wd2 + 1.0 && 0.0 <= h <= ht1 + 1.0 && h <= ht2 + 1.0
    ensures 0.0 <= i <= (wd1 + 1.0) * (ht1 + 1.0)
    ensures i <= (wd2 + 1.0) * (ht2 + 1.0)
    ensures (wd1 + 1.0) * (ht1 + 1.0) >= 1.0
  {
    ProductMonotone(0.0, 0.0, w, h);
    ProductMonotone(w, h, wd1 + 1.0, ht1 + 1.0);
    ProductMonotone(w, h, wd2 + 1.0, ht2 + 1.0);
    ProductMonotone(1.0, 1.0, wd1 + 1.0, ht1 + 1.0);
  }

  lemma InclusiveAreaIs(b: Rect)
    ensures InclusiveArea(b) == (b.width + 1.0) * (b.height + 1.0)
  {
    assert b.x + b.width - b.x + 1.0 == b.width + 1.0;
    assert b.y + b.height - b.y + 1.0 == b.height + 1.0;
  }

  /** `i / (a1 + a2 - i)` lies in [0, 1] when `0 <= i <= a1, a2` and `a1 >= 1`. */
  lemma RatioUnit(i: real, a1: real, a2: real)
    requires 0.0 <= i <= a1 && i <= a2 && a1 >= 1.0
    ensures a1 + a2 - i > 0.0
    ensures 0.0 <= i / (a1 + a2 - i) <= 1.0
  {
    var u := a1 + a2 - i;
    assert i / u * u == i;
  }

  /** For boxes of non-negative extent the union term is positive and IoU lies in [0, 1]. */
  lemma IoUUnit(b1: Rect, b2: Rect)
    requires b1.width >= 0.0 && b1.height >= 0.0 && b2.width >= 0.0 && b2.height >= 0.0
    ensures Union(b1, b2) > 0.0
    ensures 0.0 <= IoU(b1, b2) <= 1.0
  {
    IntersectionBound(b1, b2, Intersection(b1, b2));
    InclusiveAreaIs(b1);
    InclusiveAreaIs(b2);
    RatioUnit(Intersection(b1, b2), InclusiveArea(b1), InclusiveArea(b2));
  }

  /** Under the inclusive convention a box of non-negative extent overlaps itself with
      IoU exactly 1. */
  lemma IoUSelf(b: Rect)
    requires b.width >= 0.0 && b.height >= 0.0
    ensures IoU(b, b) == 1.0
  {
    var w := Overlap(b.x, b.x + b.width, b.x, b.x + b.width);
    var h := Overlap(b.y, b.y + b.height, b.y, b.y + b.height);
    assert w == b.width + 1.0 && h == b.height + 1.0;
    ProductMonotone(1.0, 1.0, w, h);
    assert InclusiveArea(b) == w * h == Intersection(b, b);
    assert Union(b, b) == w * h;
  }

  // ----- transform back to the source image -----

  /** The fields of the image-resize transformation the detector undoes: the uniform
      scale and the padding offsets of the letterboxed image. */
  datatype Transformation = Transformation(scale: real, xOffset: real, yOffset: real)

  /** `Utils::Transform`: maps a box of the network's input image back to the source
      image. Applying the resize's forward map to the result gives the box back. */
  function Transform(r: Rect, t: Transformation): (s: Rect)
    requires t.scale != 0.0
    ensures s.x * t.scale + t.xOffset == r.x && s.y * t.scale + t.yOffset == r.y
    ensures s.width * t.scale == r.width && s.height * t.scale == r.height
    ensures t.scale > 0.0 ==> (s.width >= 0.0 <==> r.width >= 0.0) && (s.height >= 0.0 <==> r.height >= 0.0)
  {
    Rect((r.x - t.xOffset) / t.scale, (r.y - t.yOffset) / t.scale, r.width / t.scale, r.height / t.scale)
  }

  // ----- DFL -----

  function Sum(s: seq<real>): real
  {
    if |s| == 0 then 0.0 else Sum(s[..|s| - 1]) + s[|s| - 1]
  }

  /** Sum of `s[i] * i`. */
  function WeightedSum(s: seq<real>): real
  {
    if |s| == 0 then 0.0 else WeightedSum(s[..|s| - 1]) + s[|s| - 1] * (|s| - 1) as real
  }

  /** Sum of `s[i] / total * i`, accumulated in index order as the decoder does. */
  function Expectation(s: seq<real>, total: real): real
    requires total != 0.0
  {
    if |s| == 0 then 0.0 else Expectation(s[..|s| - 1], total) + s[|s| - 1] / total * (|s| - 1) as real
  }

  /** `exp` is positive everywhere, as `std::exp` is. */
  ghost predicate Positive(exp: real -> real)
  {
    forall x :: exp(x) > 0.0
  }

  lemma PositiveAt(exp: real -> real, x: real)
    requires Positive(exp)
    ensures exp(x) > 0.0
  {
  }

  /** The exponentials of the bins of one edge. */
  function Exps(bins: seq<real>, exp: real -> real): (r: seq<real>)
    ensures |r| == |bins|
    ensures forall i :: 0 <= i < |bins| ==> r[i] == exp(bins[i])
  {
    seq(|bins|, i requires 0 <= i < |bins| => exp(bins[i]))
  }

  /** One decoded edge distance: the expected bin index under the softmax of the bins. */
  function DflEdge(bins: seq<real>, exp: real -> real): real
  {
    var ws := Exps(bins, exp);
    if Sum(ws) == 0.0 then 0.0 else Expectation(ws, Sum(ws))
  }

  lemma {:induction false} SumPositive(s: seq<real>)
    requires |s| > 0 && forall i :: 0 <= i < |s| ==> s[i] > 0.0
    ensures Sum(s) > 0.0
  {
    if |s| > 1 {
      SumPositive(s[..|s| - 1]);
    }
  }

  /** The accumulated expectation is the weighted sum divided by the total. */
  lemma {:induction false} ExpectationIsMean(s: seq<real>, total: real)
    requires total != 0.0
    ensures Expectation(s, total) == WeightedSum(s) / total
  {
    if |s| > 0 {
      var n := |s| - 1;
      ExpectationIsMean(s[..n], total);
      assert s[n] / total * n as real == s[n] * n as real / total;
    }
  }

  /** For non-negative weights the weighted sum lies between 0 and (n-1) times the sum. */
  lemma {:induction false} WeightedSumBounds(s: seq<real>)
    requires |s| > 0 && forall i :: 0 <= i < |s| ==> s[i] >= 0.0
    ensures 0.0 <= WeightedSum(s) <= (|s| - 1) as real * Sum(s)
  {
    var n := |s| - 1;
    if n > 0 {
      WeightedSumBounds(s[..n]);
      assert WeightedSum(s[..n]) <= (n - 1) as real * Sum(s[..n]);
      assert Sum(s[..n]) >= 0.0 by { SumNonNegative(s[..n]); }
      assert (n - 1) as real * Sum(s[..n]) <= n as real * Sum(s[..n]);
    } else {
      assert WeightedSum(s) == WeightedSum(s[..0]) + s[0] * 0.0;
    }
  }

  lemma {:induction false} SumNonNegative(s: seq<real>)
    requires forall i :: 0 <= i < |s| ==> s[i] >= 0.0
    ensures Sum(s) >= 0.0
  {
    if |s| > 0 {
      SumNonNegative(s[..|s| - 1]);
    }
  }

  /** With a positive exponential, each decoded edge of `len >= 1` bins lies in
      [0, len - 1]; with no bins it is 0. */
  lemma DflEdgeBounds(bins: seq<real>, exp: real -> real)
    requires Positive(exp)
    ensures |bins| == 0 ==> DflEdge(bins, exp) == 0.0
    ensures |bins| > 0 ==> 0.0 <= DflEdge(bins, exp) <= (|bins| - 1) as real
  {
    var ws := Exps(bins, exp);
    if |bins| > 0 {
      forall i | 0 <= i < |ws|
        ensures ws[i] > 0.0
      {
        PositiveAt(exp, bins[i]);
      }
      SumPositive(ws);
      WeightedSumBounds(ws);
      ExpectationIsMean(ws, Sum(ws));
      var t := Sum(ws);
      var m := WeightedSum(ws);
      assert m / t <= (|bins| - 1) as real by {
        assert m / t * t == m;
      }
    }
  }

  /** With a positive exponential and at least one bin, the softmax denominator is positive. */
  lemma ExpsSumPositive(bins: seq<real>, exp: real -> real)
    requires |bins| > 0 && Positive(exp)
    ensures Sum(Exps(bins, exp)) > 0.0
  {
    var ws := Exps(bins, exp);
    forall k | 0 <= k < |ws|
      ensures ws[k] > 0.0
    {
      PositiveAt(exp, bins[k]);
    }
    SumPositive(ws);
  }

  lemma SumStep(s: seq<real>, i: nat)
    requires i < |s|
    ensures Sum(s[..i + 1]) == Sum(s[..i]) + s[i]
  {
    assert s[..i + 1][..i] == s[..i];
  }

  /** One step of the accumulation: `next` is `acc` plus the term of bin `i`. */
  lemma ExpectationStep(s: seq<real>, total: real, i: nat, acc: real, x: real, next: real)
    requires i < |s| && total != 0.0 && acc == Expectation(s[..i], total)
    requires x == s[i] && next == acc + x / total * i as real
    ensures next == Expectation(s[..i + 1], total)
  {
    assert s[..i + 1][..i] == s[..i];
  }

  /** One pass of the loop of `Utils::DFL` over `b`: the exponentials of the `len` bins
      starting at `start` are stored in a scratch buffer and summed, then their weighted
      mean index is accumulated. */
  method DflPass(tensor: seq<real>, start: nat, len: nat, exp: real -> real) returns (accSum: real)
    requires start + len <= |tensor|
    requires Positive(exp)
    ensures accSum == DflEdge(tensor[start..start + len], exp)
  {
    var expT := new real[len];
    var expSum := ExpsInto(tensor, start, len, exp, expT);
    if len > 0 {
      ExpsSumPositive(tensor[start..start + len], exp);
    }
    accSum := MeanIndex(expT, expSum);
  }

  /** The first inner loop of `Utils::DFL`: `expT[i] = exp(tensor[start + i])`,
      returning the sum of the exponentials. */
  method ExpsInto(tensor: seq<real>, start: nat, len: nat, exp: real -> real, expT: array<real>) returns (expSum: real)
    requires start + len <= |tensor| && expT.Length == len
    modifies expT
    ensures expT[..] == Exps(tensor[start..start + len], exp)
    ensures expSum == Sum(expT[..])
  {
    ghost var ws := Exps(tensor[start..start + len], exp);
    expSum := 0.0;
    var i: nat := 0;
    while i < len
      invariant i <= len
      invariant forall k :: 0 <= k < i ==> expT[k] == ws[k]
      invariant expSum == Sum(ws[..i])
    {
      expT[i] := exp(tensor[i + start]);
      expSum := expSum + expT[i];
      SumStep(ws, i);
      i := i + 1;
    }
    assert ws[..len] == ws;
    assert expT[..] == ws;
  }

  /** The second inner loop of `Utils::DFL`: the sum of `expT[i] / expSum * i`, and 0
      when there are no bins. */
  method MeanIndex(expT: array<real>, expSum: real) returns (accSum: real)
    requires expT.Length > 0 ==> expSum != 0.0
    ensures expT.Length == 0 ==> accSum == 0.0
    ensures expT.Length > 0 ==> accSum == Expectation(expT[..], expSum)
  {
    accSum := 0.0;
    var i: nat := 0;
    while i < expT.Length
      invariant i <= expT.Length
      invariant expT.Length == 0 ==> accSum == 0.0
      invariant expT.Length > 0 ==> accSum == Expectation(expT[..i], expSum)
    {
      ghost var prev := accSum;
      accSum := accSum + expT[i] / expSum * i as real;
      ExpectationStep(expT[..], expSum, i, prev, expT[i], accSum);
      i := i + 1;
    }
    assert expT[..i] == expT[..];
  }

  /** `Utils::DFL`: for each of the four edges b, box[b] is the expected bin index
      of the softmax over the contiguous bins tensor[b*len .. b*len+len). */
  method Dfl(tensor: seq<real>, len: nat, box: array<real>, exp: real -> real)
    requires box.Length == 4 && 4 * len <= |tensor|
    requires Positive(exp)
    modifies box
    ensures box[0] == DflEdge(tensor[..len], exp)
    ensures box[1] == DflEdge(tensor[len..2 * len], exp)
    ensures box[2] == DflEdge(tensor[2 * len..3 * len], exp)
    ensures box[3] == DflEdge(tensor[3 * len..4 * len], exp)
  {
    var b: nat := 0;
    while b < 4
      invariant b <= 4
      invariant b > 0 ==> box[0] == DflEdge(tensor[..len], exp)
      invariant b > 1 ==> box[1] == DflEdge(tensor[len..2 * len], exp)
      invariant b > 2 ==> box[2] == DflEdge(tensor[2 * len..3 * len], exp)
      invariant b > 3 ==> box[3] == DflEdge(tensor[3 * len..4 * len], exp)
    {
      EdgeOffset(b, len);
      box[b] := DflPass(tensor, b * len, len, exp);
      b := b + 1;
    }
  }

  /** The start `b * len` of edge `b`, spelled out for each of the four edges. */
  lemma EdgeOffset(b: nat, len: nat)
    requires b < 4
    ensures b == 0 ==> b * len == 0
    ensures b == 1 ==> b * len == len
    ensures b == 2 ==> b * len == 2 * len
    ensures b == 3 ==> b * len == 3 * len
  {
  }

  // ----- non-maximum suppression -----

  /** `boxes[k]`, or an empty box at the origin for an index outside the vector. */
  function BoxAt(boxes: seq<Rect>, k: int): Rect
  {
    if 0 <= k < |boxes| then boxes[k] else Rect(0.0, 0.0, 0.0, 0.0)
  }

  /** `scores[k]`, or 0 for an index outside the vector. */
  function ScoreAt(scores: seq<real>, k: int): real
  {
    if 0 <= k < |scores| then scores[k] else 0.0
  }

  /** The greedy pass of `Utils::NMS` over a ranking `order` of box indices, best score
      first. The outer loop visits the positions of the ranking in turn; a position that
      is still marked suppresses every later position whose box has IoU above the
      threshold with its own. */
  datatype Greedy = Greedy(order: seq<int>, boxes: seq<Rect>, threshold: real) {

    /** The test of the inner loop between the boxes ranked at positions `q` and `p`. */
    predicate Overlaps(q: nat, p: nat)
      requires q < |order| && p < |order|
    {
      IoU(BoxAt(boxes, order[q]), BoxAt(boxes, order[p])) > threshold
    }

    /** Position `p` is marked -1 after the first `i` passes of the outer loop. */
    predicate Suppressed(i: nat, p: nat)
      requires i <= |order| && p < |order|
      decreases i, 1
    {
      i > 0 && (Suppressed(i - 1, p) || (i - 1 < p && Kept(i - 1) && Overlaps(i - 1, p)))
    }

    /** Position `q` is still marked when the outer loop reaches it, so it survives. */
    predicate Kept(q: nat)
      requires q < |order|
      decreases q, 2
    {
      !Suppressed(q, q)
    }

    /** The kept positions below `k`, in increasing order. */
    function KeptPositions(k: nat): (r: seq<nat>)
      requires k <= |order|
      ensures forall a :: 0 <= a < |r| ==> r[a] < k && Kept(r[a])
      ensures forall a, b :: 0 <= a < b < |r| ==> r[a] < r[b]
      ensures forall q :: 0 <= q < k && Kept(q) ==> q in r
    {
      if k == 0 then [] else KeptPositions(k - 1) + (if Kept(k - 1) then [k - 1] else [])
    }

    /** The entries of the ranking at the kept positions below `k`. */
    function Survivors(k: nat): seq<int>
      requires k <= |order|
    {
      var ps := KeptPositions(k);
      seq(|ps|, a requires 0 <= a < |ps| => order[ps[a]])
    }
  }

  /** Positions at or after `p` do not affect `p`: its mark is final once the outer
      loop reaches it. */
  lemma {:induction false} SuppressedStable(g: Greedy, i: nat, p: nat)
    requires p <= i <= |g.order| && p < |g.order|
    ensures g.Suppressed(i, p) == g.Suppressed(p, p)
  {
    if i > p {
      SuppressedStable(g, i - 1, p);
    }
  }

  /** A position is suppressed exactly when an earlier kept position overlaps it. */
  lemma {:induction false} SuppressedBy(g: Greedy, i: nat, p: nat)
    requires i <= |g.order| && p < |g.order|
    ensures g.Suppressed(i, p) <==> exists q: nat :: q < i && q < p && g.Kept(q) && g.Overlaps(q, p)
  {
    if i > 0 {
      SuppressedBy(g, i - 1, p);
    }
  }

  lemma SurvivorsStep(g: Greedy, k: nat)
    requires 0 < k <= |g.order|
    ensures g.Survivors(k) == g.Survivors(k - 1) + (if g.Kept(k - 1) then [g.order[k - 1]] else [])
  {
  }

  /** `std::remove(first, last, -1)` followed by `resize`: the entries other than -1, in
      their order. */
  function RemoveSentinel(s: seq<int>): (r: seq<int>)
    ensures |r| <= |s|
    ensures forall x :: x in r <==> x in s && x != -1
  {
    if |s| == 0 then [] else RemoveSentinel(s[..|s| - 1]) + (if s[|s| - 1] == -1 then [] else [s[|s| - 1]])
  }

  /** Removing the marks of the suppressed positions leaves the survivors. */
  lemma {:induction false} RemoveMarks(g: Greedy, s: seq<int>, k: nat)
    requires k <= |s| == |g.order|
    requires forall p :: 0 <= p < |s| ==> g.order[p] != -1
    requires forall p :: 0 <= p < |s| ==> s[p] == if g.Kept(p) then g.order[p] else -1
    ensures RemoveSentinel(s[..k]) == g.Survivors(k)
  {
    if k > 0 {
      RemoveMarks(g, s, k - 1);
      assert s[..k][..k - 1] == s[..k - 1];
      SurvivorsStep(g, k);
    }
  }

  /** The ranking every outcome of the sort in `Utils::NMS` satisfies: a permutation of
      the box indices by non-increasing score. */
  ghost predicate Ranked(g: Greedy, scores: seq<real>)
  {
    && |g.boxes| <= |scores|
    && multiset(g.order) == multiset(Range(|g.boxes|))
    && SortedDesc(g.order, k => ScoreAt(scores, k))
  }

  lemma RankedFacts(g: Greedy, scores: seq<real>)
    requires Ranked(g, scores)
    ensures |g.order| == |g.boxes| && Distinct(g.order)
    ensures forall p :: 0 <= p < |g.order| ==> 0 <= g.order[p] < |g.boxes|
    ensures forall d :: d in g.order <==> 0 <= d < |g.boxes|
    ensures forall q, p :: 0 <= q < p < |g.order| ==> scores[g.order[q]] >= scores[g.order[p]]
  {
    PermutationOfRange(g.order, |g.boxes|);
    forall q, p | 0 <= q < p < |g.order|
      ensures scores[g.order[q]] >= scores[g.order[p]]
    {
      assert ScoreAt(scores, g.order[q]) >= ScoreAt(scores, g.order[p]);
    }
  }

  /** The ranking holds box indices only. */
  lemma RankingInRange(g: Greedy, scores: seq<real>)
    requires Ranked(g, scores)
    ensures |g.order| == |g.boxes|
    ensures forall p :: 0 <= p < |g.order| ==> 0 <= g.order[p] < |g.boxes|
  {
    RankedFacts(g, scores);
  }

  /** Survivors are distinct box indices, ranked by non-increasing score. */
  lemma SurvivorsDistinctSorted(g: Greedy, scores: seq<real>)
    requires Ranked(g, scores)
    ensures var keep := g.Survivors(|g.order|);
      && (forall a :: 0 <= a < |keep| ==> 0 <= keep[a] < |g.boxes|)
      && Distinct(keep)
      && (forall a, b :: 0 <= a < b < |keep| ==> scores[keep[a]] >= scores[keep[b]])
  {
    RankedFacts(g, scores);
  }

  /** A survivor ranked after another has IoU at most the threshold with it. */
  lemma SurvivorsSeparated(g: Greedy, scores: seq<real>)
    requires Ranked(g, scores)
    ensures var keep := g.Survivors(|g.order|);
      forall a :: 0 <= a < |keep| ==> 0 <= keep[a] < |g.boxes|
    ensures var keep := g.Survivors(|g.order|);
      forall a, b :: 0 <= a < b < |keep| ==> IoU(g.boxes[keep[a]], g.boxes[keep[b]]) <= g.threshold
  {
    RankedFacts(g, scores);
    var ps := g.KeptPositions(|g.order|);
    forall a, b | 0 <= a < b < |ps|
      ensures !g.Overlaps(ps[a], ps[b])
    {
      SuppressedBy(g, ps[b], ps[b]);
    }
  }

  /** A non-empty input keeps its best-scored box, and lists it first. */
  lemma SurvivorsFirst(g: Greedy, scores: seq<real>)
    requires Ranked(g, scores) && |g.boxes| > 0
    ensures var keep := g.Survivors(|g.order|);
      forall a :: 0 <= a < |keep| ==> 0 <= keep[a] < |g.boxes|
    ensures var keep := g.Survivors(|g.order|);
      |keep| > 0 && forall d :: 0 <= d < |g.boxes| ==> scores[keep[0]] >= scores[d]
  {
    RankedFacts(g, scores);
    var ps := g.KeptPositions(|g.order|);
    assert g.Kept(0);
    assert 0 in ps;
    assert ps[0] == 0;
    forall d | 0 <= d < |g.boxes|
      ensures scores[g.order[0]] >= scores[d]
    {
      assert d in g.order;
      var p :| 0 <= p < |g.order| && g.order[p] == d;
      if p > 0 {
        assert scores[g.order[0]] >= scores[g.order[p]];
      }
    }
  }

  /** The box ranked at a kept position is among the survivors. */
  lemma SurvivorsHoldKept(g: Greedy, p: nat)
    requires p < |g.order|
    ensures g.Kept(p) ==> g.order[p] in g.Survivors(|g.order|)
  {
    if g.Kept(p) {
      var ps := g.KeptPositions(|g.order|);
      var a :| 0 <= a < |ps| && ps[a] == p;
      assert g.Survivors(|g.order|)[a] == g.order[p];
    }
  }

  /** Every dropped box has IoU above the threshold with a survivor whose score is at
      least its own. */
  lemma SurvivorsCover(g: Greedy, scores: seq<real>, d: int)
    requires Ranked(g, scores) && 0 <= d < |g.boxes|
    requires d !in g.Survivors(|g.order|)
    ensures var keep := g.Survivors(|g.order|);
      forall a :: 0 <= a < |keep| ==> 0 <= keep[a] < |g.boxes|
    ensures var keep := g.Survivors(|g.order|);
      exists a :: 0 <= a < |keep| && scores[keep[a]] >= scores[d] && IoU(g.boxes[keep[a]], g.boxes[d]) > g.threshold
  {
    RankedFacts(g, scores);
    var keep := g.Survivors(|g.order|);
    var ps := g.KeptPositions(|g.order|);
    assert d in g.order;
    var p :| 0 <= p < |g.order| && g.order[p] == d;
    SurvivorsHoldKept(g, p);
    SuppressedBy(g, p, p);
    var q: nat :| q < p && g.Kept(q) && g.Overlaps(q, p);
    var a :| 0 <= a < |ps| && ps[a] == q;
    assert keep[a] == g.order[q];
  }

  /** `Utils::NMS`: ranks the box indices by descending score, marks with -1 every entry
      whose box overlaps a still-marked entry ranked ahead of it by IoU above the
      threshold, and removes the marks. `order` is the ranking the sort produced. */
  method Nms(boxes: seq<Rect>, scores: seq<real>, threshold: real) returns (keep: seq<int>, ghost order: seq<int>)
    requires |boxes| <= |scores|
    ensures Ranked(Greedy(order, boxes, threshold), scores)
    ensures keep == Greedy(order, boxes, threshold).Survivors(|order|)
    ensures NmsResult(boxes, scores, threshold, keep)
  {
    var n := |boxes|;
    var indice := seq(n, _ => 0);
    var i := 0;
    while i < n
      invariant i <= n && |indice| == n
      invariant forall k :: 0 <= k < i ==> indice[k] == k
    {
      indice := indice[i := i];
      i := i + 1;
    }
    assert indice == Range(n);
    indice := SortDesc(indice, k => ScoreAt(scores, k));
    order := indice;
    ghost var g := Greedy(order, boxes, threshold);
    assert Ranked(g, scores);
    RankingInRange(g, scores);

    indice := Suppress(indice, boxes, threshold);
    keep := RemoveSentinel(indice);
    FinalMarks(g, indice);
    SurvivorsProperties(g, scores);
  }

  /** The nested loops of `Utils::NMS` over the sorted `indice`: for each entry still
      marked, every later entry still marked whose box has IoU above the threshold with
      its box is overwritten with -1. */
  method Suppress(order: seq<int>, boxes: seq<Rect>, threshold: real) returns (indice: seq<int>)
    requires forall p :: 0 <= p < |order| ==> 0 <= order[p] < |boxes|
    ensures |indice| == |order|
    ensures forall p :: 0 <= p < |order| ==>
      indice[p] == if Greedy(order, boxes, threshold).Suppressed(|order|, p) then -1 else order[p]
  {
    ghost var g := Greedy(order, boxes, threshold);
    var n := |order|;
    indice := order;
    var i := 0;
    while i < n
      invariant i <= n && |indice| == n
      invariant forall p :: 0 <= p < n ==> indice[p] == if g.Suppressed(i, p) then -1 else order[p]
    {
      if indice[i] == -1 {
        i := i + 1;
        continue;
      }
      var j := i + 1;
      while j < n
        invariant i < j <= n && |indice| == n
        invariant forall p :: 0 <= p < n ==>
          indice[p] == if (if p < j then g.Suppressed(i + 1, p) else g.Suppressed(i, p)) then -1 else order[p]
      {
        if indice[j] == -1 {
          j := j + 1;
          continue;
        }
        var iou := IoU(boxes[indice[i]], boxes[indice[j]]);
        if iou > threshold {
          indice := indice[j := -1];
        }
        j := j + 1;
      }
      i := i + 1;
    }
  }

  /** After the last pass of the outer loop, removing the marks leaves the survivors. */
  lemma FinalMarks(g: Greedy, s: seq<int>)
    requires |s| == |g.order|
    requires forall p :: 0 <= p < |s| ==> g.order[p] != -1
    requires forall p :: 0 <= p < |s| ==> s[p] == if g.Suppressed(|s|, p) then -1 else g.order[p]
    ensures RemoveSentinel(s) == g.Survivors(|s|)
  {
    forall p | 0 <= p < |s|
      ensures s[p] == if g.Kept(p) then g.order[p] else -1
    {
      SuppressedStable(g, |s|, p);
    }
    assert s[..|s|] == s;
    RemoveMarks(g, s, |s|);
  }

  /** What `Utils::NMS` promises about the indices `keep` it returns: distinct indices
      of boxes, by non-increasing score; survivors pairwise at most the threshold apart
      in IoU; none without boxes, else the best-scored box first; and every dropped box
      overlapping, by IoU above the threshold, a survivor scored at least as high. */
  ghost predicate NmsResult(boxes: seq<Rect>, scores: seq<real>, threshold: real, keep: seq<int>)
  {
    && |boxes| <= |scores|
    && (forall a :: 0 <= a < |keep| ==> 0 <= keep[a] < |boxes|)
    && Distinct(keep)
    && (forall a, b :: 0 <= a < b < |keep| ==> scores[keep[a]] >= scores[keep[b]])
    && (forall a, b :: 0 <= a < b < |keep| ==> IoU(boxes[keep[a]], boxes[keep[b]]) <= threshold)
    && (|boxes| == 0 ==> keep == [])
    && (|boxes| > 0 ==> |keep| > 0 && forall d :: 0 <= d < |boxes| ==> scores[keep[0]] >= scores[d])
    && (forall d :: 0 <= d < |boxes| && d !in keep ==>
         exists a :: 0 <= a < |keep| && scores[keep[a]] >= scores[d] && IoU(boxes[keep[a]], boxes[d]) > threshold)
  }

  /** The survivors of the greedy pass over any ranking the sort may produce keep every
      promise of `Utils::NMS`. */
  lemma SurvivorsProperties(g: Greedy, scores: seq<real>)
    requires Ranked(g, scores)
    ensures NmsResult(g.boxes, scores, g.threshold, g.Survivors(|g.order|))
  {
    var keep := g.Survivors(|g.order|);
    SurvivorsDistinctSorted(g, scores);
    SurvivorsSeparated(g, scores);
    if |g.boxes| > 0 {
      SurvivorsFirst(g, scores);
    } else {
      SurvivorsOfNone(g, scores);
    }
    forall d | 0 <= d < |g.boxes| && d !in keep
      ensures exists a :: 0 <= a < |keep| && scores[keep[a]] >= scores[d] && IoU(g.boxes[keep[a]], g.boxes[d]) > g.threshold
    {
      SurvivorsCover(g, scores, d);
    }
  }

  /** Without boxes nothing survives. */
  lemma SurvivorsOfNone(g: Greedy, scores: seq<real>)
    requires Ranked(g, scores) && |g.boxes| == 0
    ensures g.Survivors(|g.order|) == []
  {
    RankingInRange(g, scores);
    assert g.KeptPositions(0) == [];
  }

  /** When no two boxes overlap by IoU above the threshold, nothing is suppressed:
      the result is the whole ranking. */
  lemma {:induction false} NoOverlapKeepsAll(g: Greedy, scores: seq<real>, k: nat)
    requires Ranked(g, scores) && k <= |g.order|
    requires forall a, b :: 0 <= a < |g.boxes| && 0 <= b < |g.boxes| && a != b ==> IoU(g.boxes[a], g.boxes[b]) <= g.threshold
    ensures g.Survivors(k) == g.order[..k]
  {
    if k > 0 {
      NoOverlapKeepsAll(g, scores, k - 1);
      NoOverlapKept(g, scores, k - 1);
      SurvivorsStep(g, k);
      assert g.order[..k] == g.order[..k - 1] + [g.order[k - 1]];
    }
  }

  lemma NoOverlapKept(g: Greedy, scores: seq<real>, p: nat)
    requires Ranked(g, scores) && p < |g.order|
    requires forall a, b :: 0 <= a < |g.boxes| && 0 <= b < |g.boxes| && a != b ==> IoU(g.boxes[a], g.boxes[b]) <= g.threshold
    ensures g.Kept(p)
  {
    RankedFacts(g, scores);
    forall q: nat | q < p
      ensures !g.Overlaps(q, p)
    {
      assert g.order[q] != g.order[p];
      assert IoU(g.boxes[g.order[q]], g.boxes[g.order[p]]) <= g.threshold;
    }
    SuppressedBy(g, p, p);
  }

  /** When every box is the same box of non-negative extent and the threshold is below 1,
      only the first-ranked box survives. */
  lemma {:induction false} IdenticalBoxesKeepOne(g: Greedy, scores: seq<real>, b: Rect, k: nat)
    requires Ranked(g, scores) && 0 < k <= |g.order|
    requires b.width >= 0.0 && b.height >= 0.0 && g.threshold < 1.0
    requires forall a :: 0 <= a < |g.boxes| ==> g.boxes[a] == b
    ensures g.Survivors(k) == [g.order[0]]
  {
    RankedFacts(g, scores);
    SurvivorsStep(g, k);
    assert g.Kept(0);
    if k == 1 {
      assert g.Survivors(0) == [];
    } else {
      IdenticalBoxesKeepOne(g, scores, b, k - 1);
      IoUSelf(b);
      assert g.Overlaps(0, k - 1);
      SuppressedBy(g, k - 1, k - 1);
    }
  }

  /** The boxes `Utils::NMS` keeps, in the order it returns their indices. */
  function KeptBoxes(boxes: seq<Rect>, keep: seq<int>): seq<Rect>
  {
    seq(|keep|, a requires 0 <= a < |keep| => BoxAt(boxes, keep[a]))
  }

  /** The scores of the kept boxes, in the same order. */
  function KeptScores(scores: seq<real>, keep: seq<int>): seq<real>
  {
    seq(|keep|, a requires 0 <= a < |keep| => ScoreAt(scores, keep[a]))
  }

  /** Idempotence: a second pass over the boxes a first pass kept, with their scores and
      the same threshold, keeps every one of them, whatever ranking its sort produces. */
  lemma NmsIdempotent(boxes: seq<Rect>, scores: seq<real>, threshold: real, keep: seq<int>, order: seq<int>)
    requires NmsResult(boxes, scores, threshold, keep)
    requires Ranked(Greedy(order, KeptBoxes(boxes, keep), threshold), KeptScores(scores, keep))
    ensures Greedy(order, KeptBoxes(boxes, keep), threshold).Survivors(|order|) == order
    ensures forall d :: d in order <==> 0 <= d < |keep|
  {
    var g := Greedy(order, KeptBoxes(boxes, keep), threshold);
    RankedFacts(g, KeptScores(scores, keep));
    forall a, b | 0 <= a < |g.boxes| && 0 <= b < |g.boxes| && a != b
      ensures IoU(g.boxes[a], g.boxes[b]) <= threshold
    {
      if b < a {
        IoUSymmetric(g.boxes[a], g.boxes[b]);
      }
    }
    NoOverlapKeepsAll(g, KeptScores(scores, keep), |order|);
    assert order[..|order|] == order;
  }
}
