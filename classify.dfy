/** `Classify::Postprocess`: the class scores of output tensor 0 as (index, score)
    pairs, sorted by descending score and cut, or padded, to the top-k count, which the
    classifier keeps in a field and clamps on every call. */
module Classify {
  import opened Types
  import opened Sorting

  /** `struct Class`: a class index and its score. */
  datatype Class = Class(index: int, score: real)

  /** `Class()`: index 0, score 0, the entry `resize` pads with. */
  function DefaultClass(): Class
  {
    Class(0, 0.0)
  }

  /** The sort key of the comparator `a.score > b.score`. */
  function Score(c: Class): real
  {
    c.score
  }

  /** Element types the collection loop has a branch for. */
  predicate Reads(d: DType)
  {
    d == Float32 || d == Int8 || d == Float16
  }

  /** The score of class `i`: the raw sample for `float` and `float16` tensors (every
      half-precision value is a single-precision value, so the cast keeps it), the
      dequantized sample for `int8` tensors. */
  function ClassScore(attr: TensorAttr, v: real): real
  {
    if attr.dtype == Int8 then DequantizeWith(v, attr.quant.scale, attr.quant.zp) else v
  }

  /** The shape the collection loop needs: a class dimension, and a sample for each
      class when the element type is one it reads. */
  predicate Readable(data: seq<real>, attr: TensorAttr)
  {
    |attr.dims| >= 2 && (Reads(attr.dtype) ==> attr.Dim(1) <= |data|)
  }

  /** The pairs the collection loop builds: one per class, in class order, when the
      element type is read, and none otherwise. */
  function Collected(data: seq<real>, attr: TensorAttr): seq<Class>
    requires Readable(data, attr)
  {
    if Reads(attr.dtype) then
      seq(attr.Dim(1), i requires 0 <= i < attr.Dim(1) => Class(i, ClassScore(attr, data[i])))
    else []
  }

  /** `_topk > static_cast<int>(nc) || _topk < 0 ? nc : _topk`, with `nc` converted to
      `int` on both sides: a valid count is kept, any other becomes the class count. */
  function ClampTopK(topk: int, nc: uint32): (k: int)
    ensures 0 <= topk <= AsInt32(nc) ==> k == topk
    ensures topk < 0 || topk > AsInt32(nc) ==> k == AsInt32(nc)
    ensures nc < 0x8000_0000 ==> 0 <= k <= nc
  {
    if topk > AsInt32(nc) || topk < 0 then AsInt32(nc) else topk
  }

  /** The clamp is idempotent: once the field holds the clamped count, a later call with
      the same class count leaves it as it is. */
  lemma ClampPersists(topk: int, nc: uint32)
    ensures ClampTopK(ClampTopK(topk, nc), nc) == ClampTopK(topk, nc)
    ensures ClampTopK(topk, nc) == topk <==> 0 <= topk <= AsInt32(nc) || topk == AsInt32(nc)
  {
  }

  /** `std::vector::resize(k)`: the first `k` elements, padded with default entries. */
  function Resize(s: seq<Class>, k: nat): (r: seq<Class>)
    ensures |r| == k
    ensures forall i :: 0 <= i < k && i < |s| ==> r[i] == s[i]
    ensures forall i :: |s| <= i < k ==> r[i] == DefaultClass()
  {
    if k <= |s| then s[..k] else s + seq(k - |s|, _ => DefaultClass())
  }

  /** `sorted` is an order `std::sort` may leave the collected pairs in: a
      permutation of them by non-increasing score. The comparator is not a strict
      order on equal scores, so pairs that tie may come out in any order. */
  ghost predicate Ranking(data: seq<real>, attr: TensorAttr, sorted: seq<Class>)
    requires Readable(data, attr)
  {
    multiset(sorted) == multiset(Collected(data, attr)) && SortedDesc(sorted, Score)
  }

  /** What `Postprocess` returns when the sort leaves the pairs in the order `sorted`
      and the field holds `topk`. */
  function TopK(sorted: seq<Class>, attr: TensorAttr, topk: int): seq<Class>
    requires |attr.dims| >= 2 && attr.dims[1] < 0x8000_0000
  {
    Resize(sorted, ClampTopK(topk, attr.dims[1]))
  }

  /** The insertion sort of the model is one such order, so every property below
      applies to `Postprocess`. */
  lemma SortDescRanks(data: seq<real>, attr: TensorAttr)
    requires Readable(data, attr)
    ensures Ranking(data, attr, SortDesc(Collected(data, attr), Score))
  {
  }

  /** The result has the clamped count of entries: `topk` when it is a valid count, the
      class count otherwise. */
  lemma TopKLength(sorted: seq<Class>, attr: TensorAttr, topk: int)
    requires |attr.dims| >= 2 && attr.dims[1] < 0x8000_0000
    ensures |TopK(sorted, attr, topk)| == ClampTopK(topk, attr.dims[1])
    ensures 0 <= topk <= attr.Dim(1) ==> |TopK(sorted, attr, topk)| == topk
    ensures topk < 0 || topk > attr.Dim(1) ==> |TopK(sorted, attr, topk)| == attr.Dim(1)
  {
  }

  /** Every entry of the collected list is the pair of its own class. */
  lemma {:induction false} CollectedMembers(data: seq<real>, attr: TensorAttr, c: Class)
    requires Readable(data, attr) && Reads(attr.dtype)
    requires c in multiset(Collected(data, attr))
    ensures 0 <= c.index < attr.Dim(1)
    ensures c == Class(c.index, ClassScore(attr, data[c.index]))
  {
    var cs := Collected(data, attr);
    assert c in cs;
    var i :| 0 <= i < |cs| && cs[i] == c;
  }

  /** A ranking has one entry per collected pair. */
  lemma RankingLength(data: seq<real>, attr: TensorAttr, sorted: seq<Class>)
    requires Readable(data, attr) && Ranking(data, attr, sorted)
    ensures |sorted| == |Collected(data, attr)|
  {
    assert |sorted| == |multiset(sorted)| == |multiset(Collected(data, attr))|;
  }

  /** The entries are sorted by non-increasing score, whatever order the sort leaves
      ties in; padding entries all score 0, and padding happens only when nothing was
      collected. */
  lemma TopKSorted(data: seq<real>, attr: TensorAttr, sorted: seq<Class>, topk: int)
    requires Readable(data, attr) && attr.dims[1] < 0x8000_0000 && Ranking(data, attr, sorted)
    ensures SortedDesc(TopK(sorted, attr, topk), Score)
  {
    var r := TopK(sorted, attr, topk);
    RankingLength(data, attr, sorted);
    if !Reads(attr.dtype) {
      assert forall a :: 0 <= a < |r| ==> r[a] == DefaultClass();
    } else {
      assert |r| <= |sorted|;
      assert forall a :: 0 <= a < |r| ==> r[a] == sorted[a];
    }
  }

  /** For an element type the loop reads, each entry is a distinct class of the output,
      carrying that class's score: the raw sample for `float` and `float16`, the sample
      dequantized with the tensor's scale and zero point for `int8`. */
  lemma TopKEntries(data: seq<real>, attr: TensorAttr, sorted: seq<Class>, topk: int)
    requires Readable(data, attr) && attr.dims[1] < 0x8000_0000 && Reads(attr.dtype)
    requires Ranking(data, attr, sorted)
    ensures var r := TopK(sorted, attr, topk);
      && (forall a :: 0 <= a < |r| ==> 0 <= r[a].index < attr.Dim(1))
      && (forall a :: 0 <= a < |r| ==>
            r[a].score == if attr.dtype == Int8 then attr.quant.Dequantize(data[r[a].index]) else data[r[a].index])
      && (forall a, b :: 0 <= a < b < |r| ==> r[a].index != r[b].index)
  {
    var cs := Collected(data, attr);
    var r := TopK(sorted, attr, topk);
    RankingLength(data, attr, sorted);
    assert |r| <= |sorted|;
    forall a | 0 <= a < |r|
      ensures 0 <= r[a].index < attr.Dim(1) && r[a] == Class(r[a].index, ClassScore(attr, data[r[a].index]))
    {
      assert r[a] == sorted[a];
      assert sorted[a] in multiset(sorted);
      CollectedMembers(data, attr, r[a]);
    }
    assert Distinct(cs) by {
      forall i, j | 0 <= i < j < |cs|
        ensures cs[i] != cs[j]
      {
        assert cs[i].index == i && cs[j].index == j;
      }
    }
    DistinctPermutation(cs, sorted);
    forall a, b | 0 <= a < b < |r|
      ensures r[a].index != r[b].index
    {
      assert r[a] == sorted[a] && r[b] == sorted[b];
    }
  }

  /** Top-k: for an element type the loop reads, a class missing from the result scores
      at most as much as every entry of it, whatever order the sort leaves ties in. */
  lemma TopKBest(data: seq<real>, attr: TensorAttr, sorted: seq<Class>, topk: int, i: nat)
    requires Readable(data, attr) && attr.dims[1] < 0x8000_0000 && Reads(attr.dtype)
    requires Ranking(data, attr, sorted) && i < attr.Dim(1)
    requires forall a :: 0 <= a < |TopK(sorted, attr, topk)| ==> TopK(sorted, attr, topk)[a].index != i
    ensures forall a :: 0 <= a < |TopK(sorted, attr, topk)| ==>
      ClassScore(attr, data[i]) <= TopK(sorted, attr, topk)[a].score
  {
    var cs := Collected(data, attr);
    var r := TopK(sorted, attr, topk);
    assert cs[i] in multiset(cs);
    assert cs[i] in multiset(sorted);
    var p :| 0 <= p < |sorted| && sorted[p] == cs[i];
    forall a | 0 <= a < |r|
      ensures r[a] != sorted[p]
    {
      assert r[a].index != i;
    }
    assert |r| <= p;
    forall a | 0 <= a < |r|
      ensures ClassScore(attr, data[i]) <= r[a].score
    {
      assert r[a] == sorted[a];
      assert Score(sorted[a]) >= Score(sorted[p]);
    }
  }

  /** For an element type without a branch nothing is collected, and the result is the
      clamped count of default entries. */
  lemma TopKUnread(data: seq<real>, attr: TensorAttr, sorted: seq<Class>, topk: int)
    requires Readable(data, attr) && attr.dims[1] < 0x8000_0000 && !Reads(attr.dtype)
    requires Ranking(data, attr, sorted)
    ensures TopK(sorted, attr, topk) == seq(ClampTopK(topk, attr.dims[1]), _ => DefaultClass())
  {
    RankingLength(data, attr, sorted);
  }

  /** The classifier: an engine whose post-processing keeps the `_topk` field. */
  class Classify {
    var topk: int

    /** `Classify(modelPath, topk)`: the model path goes to the engine. */
    constructor(topk: int)
      ensures this.topk == topk
    {
      this.topk := topk;
    }

    /** `Classify(modelPath)`: the top-k argument defaults to 5. */
    constructor Default()
      ensures topk == 5
    {
      topk := 5;
    }

    /** `Postprocess`: collect the pairs of tensor 0, sort them by descending score,
        clamp the field and resize to it. */
    method Postprocess(data: seq<real>, attr: TensorAttr) returns (result: seq<Class>, ghost sorted: seq<Class>)
      requires Readable(data, attr) && attr.dims[1] < 0x8000_0000
      modifies this
      ensures topk == ClampTopK(old(topk), attr.dims[1])
      ensures Ranking(data, attr, sorted)
      ensures result == TopK(sorted, attr, old(topk))
    {
      var nc := attr.dims[1];
      var classes := CollectClasses(data, attr);
      classes := SortDesc(classes, Score);
      sorted := classes;
      topk := if topk > AsInt32(nc) || topk < 0 then AsInt32(nc) else topk;
      result := Resize(classes, topk);
    }
  }

  /** The collection loop of `Postprocess`: one pair per class for the element types it
      has a branch for. */
  method CollectClasses(data: seq<real>, attr: TensorAttr) returns (classes: seq<Class>)
    requires Readable(data, attr)
    ensures classes == Collected(data, attr)
  {
    var nc := attr.dims[1];
    classes := [];
    var i: uint32 := 0;
    while i < nc
      invariant i <= nc
      invariant |classes| == if Reads(attr.dtype) then i as int else 0
      invariant forall k :: 0 <= k < |classes| ==> classes[k] == Class(k, ClassScore(attr, data[k]))
    {
      if attr.dtype == Float32 {
        classes := classes + [Class(i, data[i])];
      } else if attr.dtype == Int8 {
        classes := classes + [Class(i, DequantizeWith(data[i], attr.quant.scale, attr.quant.zp))];
      } else if attr.dtype == Float16 {
        classes := classes + [Class(i, data[i])];
      }
      i := i + 1;
    }
  }
}
