/** The layout normalizer: a gather from the accelerator's blocked layout
    (N, C1, H, W, C2) into channel-major order (C, H, W). Channel `c` of the logical
    tensor lives in block `c / C2`, at lane `c % C2` of each spatial position. */
module Layout {
  import opened Types

  // ----- integer helpers -----

  lemma MulMonotone(a: int, b: int, k: int)
    requires 0 <= a <= b && 0 <= k
    ensures a * k <= b * k
  {
    assert b * k - a * k == (b - a) * k;
  }

  lemma MulSucc(a: int, k: int)
    ensures (a + 1) * k == a * k + k
  {
  }

  /** Quotient and remainder are determined by any decomposition `n == q * d + r`
      with `0 <= r < d`. */
  lemma DivModUnique(n: int, d: int, q: int, r: int)
    requires d > 0 && 0 <= r < d && n == q * d + r
    ensures n / d == q && n % d == r
  {
    var q', r' := n / d, n % d;
    assert n == q' * d + r';
    if q' > q {
      MulMonotone(q + 1, q', d);
      assert false;
    } else if q' < q {
      MulMonotone(q' + 1, q, d);
      assert false;
    }
  }

  // ----- index maps -----

  /** Position of logical element (c, h, w) in the channel-major destination. */
  function DstIndex(c: nat, h: nat, w: nat, height: nat, width: nat): nat
  {
    c * (height * width) + h * width + w
  }

  /** Position read for logical element (c, h, w) in the blocked source, where `plane`
      is the number of spatial positions of one source block. */
  function SrcIndex(c: nat, h: nat, w: nat, width: nat, c2: nat, plane: nat): nat
    requires c2 > 0
  {
    (c / c2) * plane * c2 + c2 * (h * width + w) + c % c2
  }

  lemma SpatialBelow(h: nat, w: nat, height: nat, width: nat)
    requires h < height && w < width
    ensures h * width + w < height * width
  {
    MulMonotone(h + 1, height, width);
  }

  /** The destination cell of (c, h, w) lies in channel `c`'s slab and after every cell
      of an earlier row of that channel. */
  lemma DstIndexRange(c: nat, h: nat, w: nat, height: nat, width: nat)
    requires h < height && w < width
    ensures c * (height * width) + h * width <= DstIndex(c, h, w, height, width)
    ensures DstIndex(c, h, w, height, width) < c * (height * width) + (h + 1) * width
    ensures DstIndex(c, h, w, height, width) < (c + 1) * (height * width)
  {
    SpatialBelow(h, w, height, width);
  }

  /** Every destination cell of a shape (C, H, W) lies below C*H*W. */
  lemma DstIndexBound(c: nat, h: nat, w: nat, channels: nat, height: nat, width: nat)
    requires c < channels && h < height && w < width
    ensures DstIndex(c, h, w, height, width) < channels * (height * width)
  {
    DstIndexRange(c, h, w, height, width);
    MulMonotone(c + 1, channels, height * width);
  }

  /** Distinct logical elements have distinct destination cells. */
  lemma DstIndexInjective(c: nat, h: nat, w: nat, c': nat, h': nat, w': nat, height: nat, width: nat)
    requires h < height && w < width && h' < height && w' < width
    requires DstIndex(c, h, w, height, width) == DstIndex(c', h', w', height, width)
    ensures c == c' && h == h' && w == w'
  {
    SpatialBelow(h, w, height, width);
    SpatialBelow(h', w', height, width);
    var k := DstIndex(c, h, w, height, width);
    DivModUnique(k, height * width, c, h * width + w);
    DivModUnique(k, height * width, c', h' * width + w');
    DivModUnique(h * width + w, width, h, w);
    DivModUnique(h' * width + w', width, h', w');
  }

  /** Every destination position below C*H*W is the cell of some logical element, so the
      triple loop writes exactly the first C*H*W positions, each once. */
  lemma DstIndexCovers(k: nat, channels: nat, height: nat, width: nat)
    requires k < channels * (height * width)
    ensures exists c: nat, h: nat, w: nat ::
      c < channels && h < height && w < width && DstIndex(c, h, w, height, width) == k
  {
    var plane := height * width;
    assert plane > 0;
    assert width > 0;
    var c, r := k / plane, k % plane;
    var h, w := r / width, r % width;
    assert k == c * plane + r;
    if c >= channels {
      MulMonotone(channels, c, plane);
      assert false;
    }
    assert r == h * width + w;
    if h >= height {
      MulMonotone(height, h, width);
      assert false;
    }
    assert DstIndex(c, h, w, height, width) == k;
  }

  /** With source and destination of the same spatial size and C <= C1*C2, every source
      position read lies within the C1*H*W*C2 elements of the blocked tensor. */
  lemma SrcIndexBound(c: nat, h: nat, w: nat, channels: nat, blocks: nat, height: nat, width: nat, c2: nat)
    requires c2 > 0 && channels <= blocks * c2
    requires c < channels && h < height && w < width
    ensures SrcIndex(c, h, w, width, c2, height * width) < blocks * (height * width) * c2
  {
    var plane := height * width;
    var p := c / c2;
    assert c == p * c2 + c % c2;
    if p >= blocks {
      MulMonotone(blocks, p, c2);
      assert false;
    }
    SpatialBelow(h, w, height, width);
    var off2 := h * width + w;
    var s := p * plane + off2;
    assert SrcIndex(c, h, w, width, c2, plane) == s * c2 + c % c2;
    MulSucc(s, c2);
    assert s * c2 + c % c2 < (s + 1) * c2;
    MulSucc(p, plane);
    assert s + 1 <= (p + 1) * plane;
    MulMonotone(s + 1, (p + 1) * plane, c2);
    MulMonotone(p + 1, blocks, plane);
    MulMonotone((p + 1) * plane, blocks * plane, c2);
  }

  /** The source position as (block offset + spatial offset) * C2 + lane. */
  lemma SrcIndexSplit(c: nat, h: nat, w: nat, width: nat, c2: nat, plane: nat)
    requires c2 > 0
    ensures SrcIndex(c, h, w, width, c2, plane) == ((c / c2) * plane + (h * width + w)) * c2 + c % c2
  {
    var p, o := c / c2, h * width + w;
    assert p * plane * c2 + c2 * o == (p * plane + o) * c2;
  }

  /** Distinct logical elements read distinct source elements: the gather is injective. */
  lemma SrcIndexInjective(c: nat, h: nat, w: nat, c': nat, h': nat, w': nat, height: nat, width: nat, c2: nat)
    requires c2 > 0
    requires h < height && w < width && h' < height && w' < width
    requires SrcIndex(c, h, w, width, c2, height * width) == SrcIndex(c', h', w', width, c2, height * width)
    ensures c == c' && h == h' && w == w'
  {
    var plane := height * width;
    var k := SrcIndex(c, h, w, width, c2, plane);
    SpatialBelow(h, w, height, width);
    SpatialBelow(h', w', height, width);
    var o, o' := h * width + w, h' * width + w';
    var p, p' := c / c2, c' / c2;
    SrcIndexSplit(c, h, w, width, c2, plane);
    SrcIndexSplit(c', h', w', width, c2, plane);
    DivModUnique(k, c2, p * plane + o, c % c2);
    DivModUnique(k, c2, p' * plane + o', c' % c2);
    var m := k / c2;
    DivModUnique(m, plane, p, o);
    DivModUnique(m, plane, p', o');
    DivModUnique(o, width, h, w);
    DivModUnique(o', width, h', w');
    assert c == p * c2 + c % c2;
    assert c' == p' * c2 + c' % c2;
  }

  /** With one lane per block the conversion reads each element at its own position: a
      plain copy. */
  lemma SingleLaneIsCopy(c: nat, h: nat, w: nat, height: nat, width: nat)
    ensures SrcIndex(c, h, w, width, 1, height * width) == DstIndex(c, h, w, height, width)
  {
    assert c / 1 == c && c % 1 == 0;
  }

  // ----- the conversion -----

  /** The number of spatial positions H*W of a tensor of four or five dimensions. */
  function Plane(a: TensorAttr): nat
    requires |a.dims| >= 4
  {
    a.Dim(2) * a.Dim(3)
  }

  /** The number of elements C*H*W of a channel-major tensor. */
  function Count(a: TensorAttr): nat
    requires |a.dims| >= 4
  {
    a.Dim(1) * Plane(a)
  }

  /** What the conversion needs of its arguments: a blocked source attribute with five
      dimensions and a non-zero lane count, a logical destination attribute of the same
      spatial size with no more channels than the blocks hold, a source buffer holding
      the whole blocked tensor and a destination with room for C*H*W elements. */
  predicate Convertible(srcAttr: TensorAttr, dstAttr: TensorAttr, srcLen: nat, dstLen: nat)
  {
    && |srcAttr.dims| == 5 && |dstAttr.dims| == 4
    && srcAttr.Dim(4) > 0
    && srcAttr.Dim(2) == dstAttr.Dim(2) && srcAttr.Dim(3) == dstAttr.Dim(3)
    && dstAttr.Dim(1) <= srcAttr.Dim(1) * srcAttr.Dim(4)
    && srcAttr.Dim(1) * Plane(srcAttr) * srcAttr.Dim(4) <= srcLen
    && Count(dstAttr) <= dstLen
  }

  /** The source position read for destination position `k`, found by splitting `k`
      into its channel, row and column; zero for a degenerate shape. */
  function SrcOf(k: nat, height: nat, width: nat, c2: nat): nat
  {
    if height * width == 0 || c2 == 0 then 0
    else
      var plane := height * width;
      SrcIndex(k / plane, (k % plane) / width, (k % plane) % width, width, c2, plane)
  }

  lemma SrcOfCell(c: nat, h: nat, w: nat, height: nat, width: nat, c2: nat)
    requires h < height && w < width && c2 > 0
    ensures SrcOf(DstIndex(c, h, w, height, width), height, width, c2) == SrcIndex(c, h, w, width, c2, height * width)
  {
    var plane := height * width;
    var k := DstIndex(c, h, w, height, width);
    SpatialBelow(h, w, height, width);
    DivModUnique(k, plane, c, h * width + w);
    DivModUnique(h * width + w, width, h, w);
  }

  /** For a shape the conversion accepts, every destination position below C*H*W reads
      a position inside the blocked source. */
  lemma SrcOfBound(k: nat, chans: nat, blocks: nat, height: nat, width: nat, c2: nat)
    requires c2 > 0 && chans <= blocks * c2 && k < chans * (height * width)
    ensures SrcOf(k, height, width, c2) < blocks * (height * width) * c2
  {
    DstIndexCovers(k, chans, height, width);
    var c: nat, h: nat, w: nat :| c < chans && h < height && w < width && DstIndex(c, h, w, height, width) == k;
    SrcOfCell(c, h, w, height, width, c2);
    SrcIndexBound(c, h, w, chans, blocks, height, width, c2);
  }

  /** The destination contents the conversion produces in its first C*H*W positions:
      position `k` holds `src[SrcOf(k)]`, so the cell of (c, h, w) holds the source
      element of block c / C2, lane c % C2. */
  lemma GatherOrder<T>(src: seq<T>, chans: nat, blocks: nat, height: nat, width: nat, c2: nat) returns (e: seq<T>)
    requires c2 > 0 && chans <= blocks * c2 && blocks * (height * width) * c2 <= |src|
    ensures |e| == chans * (height * width)
    ensures forall k :: 0 <= k < |e| ==> SrcOf(k, height, width, c2) < |src| && e[k] == src[SrcOf(k, height, width, c2)]
    ensures forall c: nat, h: nat, w: nat :: c < chans && h < height && w < width ==>
      DstIndex(c, h, w, height, width) < |e| &&
      SrcIndex(c, h, w, width, c2, height * width) < |src| &&
      e[DstIndex(c, h, w, height, width)] == src[SrcIndex(c, h, w, width, c2, height * width)]
  {
    var n := chans * (height * width);
    forall k | 0 <= k < n
      ensures SrcOf(k, height, width, c2) < |src|
    {
      SrcOfBound(k, chans, blocks, height, width, c2);
    }
    e := seq(n, k requires 0 <= k < n => src[SrcOf(k, height, width, c2)]);
    forall c: nat, h: nat, w: nat | c < chans && h < height && w < width
      ensures DstIndex(c, h, w, height, width) < |e|
      ensures SrcIndex(c, h, w, width, c2, height * width) < |src|
      ensures e[DstIndex(c, h, w, height, width)] == src[SrcIndex(c, h, w, width, c2, height * width)]
    {
      DstIndexBound(c, h, w, chans, height, width);
      SrcOfCell(c, h, w, height, width, c2);
    }
  }

  /** The index arithmetic of one iteration of the triple loop: with `row` the first
      destination position of row h of channel c, the position written is `row + w`, the
      cell of (c, h, w), and the position read is the source index of (c, h, w). */
  lemma CellIndices(c: nat, h: nat, w: nat, chans: nat, height: nat, width: nat, c2: nat, row: nat)
    requires c < chans && h < height && w < width && c2 > 0
    requires row == c * (height * width) + h * width
    ensures c * (height * width) + (h * width + w) == row + w == DstIndex(c, h, w, height, width)
    ensures row + w < chans * (height * width)
    ensures (c / c2) * (height * width) * c2 + c2 * (h * width + w) + c % c2 == SrcIndex(c, h, w, width, c2, height * width)
  {
    DstIndexBound(c, h, w, chans, height, width);
  }

  /** `Utils::NC1HWC2ToNCHW`: for every logical element (c, h, w) the destination cell
      receives the source element of block c / C2, lane c % C2; the source is a read-only
      value and the destination beyond the first C*H*W positions keeps its contents. */
  method NC1HWC2ToNCHW<T>(src: seq<T>, dst: array<T>, srcAttr: TensorAttr, dstAttr: TensorAttr)
    requires Convertible(srcAttr, dstAttr, |src|, dst.Length)
    modifies dst
    ensures forall c: nat, h: nat, w: nat :: c < dstAttr.Dim(1) && h < dstAttr.Dim(2) && w < dstAttr.Dim(3) ==>
      DstIndex(c, h, w, dstAttr.Dim(2), dstAttr.Dim(3)) < dst.Length &&
      SrcIndex(c, h, w, dstAttr.Dim(3), srcAttr.Dim(4), Plane(dstAttr)) < |src| &&
      dst[DstIndex(c, h, w, dstAttr.Dim(2), dstAttr.Dim(3))] ==
        src[SrcIndex(c, h, w, dstAttr.Dim(3), srcAttr.Dim(4), Plane(dstAttr))]
    ensures forall k :: 0 <= k < Count(dstAttr) ==>
      SrcOf(k, dstAttr.Dim(2), dstAttr.Dim(3), srcAttr.Dim(4)) < |src| &&
      dst[k] == src[SrcOf(k, dstAttr.Dim(2), dstAttr.Dim(3), srcAttr.Dim(4))]
    ensures forall k :: Count(dstAttr) <= k < dst.Length ==> dst[k] == old(dst[k])
  {
    var c2 := srcAttr.Dim(4);
    var chans := dstAttr.Dim(1);
    var height := dstAttr.Dim(2);
    var width := dstAttr.Dim(3);
    var srcTotal := srcAttr.Dim(2) * srcAttr.Dim(3);
    var dstTotal := dstAttr.Dim(2) * dstAttr.Dim(3);
    ghost var blocks := srcAttr.Dim(1);
    ghost var e := GatherOrder(src, chans, blocks, height, width, c2);
    assert |e| <= dst.Length;
    ghost var base: nat := 0;  // c * dstTotal

    var c: nat := 0;
    while c < chans
      invariant c <= chans && base == c * dstTotal
      invariant forall k :: 0 <= k < base && k < |e| ==> dst[k] == e[k]
      invariant forall k :: base <= k < dst.Length ==> dst[k] == old(dst[k])
    {
      var plane := c / c2;
      var off1 := c % c2;
      ghost var row: nat := base;  // c * dstTotal + h * width
      var h: nat := 0;
      while h < height
        invariant h <= height && row == c * dstTotal + h * width
        invariant forall k :: 0 <= k < row && k < |e| ==> dst[k] == e[k]
        invariant forall k :: row <= k < dst.Length ==> dst[k] == old(dst[k])
      {
        var w: nat := 0;
        while w < width
          invariant w <= width
          invariant forall k :: 0 <= k < row + w && k < |e| ==> dst[k] == e[k]
          invariant forall k :: row + w <= k < dst.Length ==> dst[k] == old(dst[k])
        {
          var off2 := h * width + w;
          CellIndices(c, h, w, chans, height, width, c2, row);
          dst[c * dstTotal + off2] := src[plane * srcTotal * c2 + c2 * off2 + off1];
          w := w + 1;
        }
        MulSucc(h, width);
        h := h + 1;
        row := row + width;
      }
      MulSucc(c, dstTotal);
      c := c + 1;
      base := base + dstTotal;
    }
  }
}
